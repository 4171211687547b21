/**
 * The edit_file tool (tools/edit_file.go): replace every occurrence of
 * old_str by new_str in a file, or create the file. Its quirks are kept:
 * the create branch is guarded by os.IsExist on the read error, which
 * os.ReadFile never reports, so no file is ever created; a failed write
 * still reports success; and createNewFile makes a directory at the file's
 * own path. EditFileIntended and CreateNewFileIntended are the same
 * tool with those three defects corrected.
 */
module EditFile {
  import opened Wrappers
  import opened Strings
  import opened FileSystem

  /** The decoded JSON input of the tool. */
  datatype EditFileInput = EditFileInput(path: string, oldStr: string, newStr: string)

  /**
   * The errors the OS reports, call by call, for reasons the disk does not
   * show. For a write fault, `written` is how many characters reached the
   * file before it, or None when the write failed at the open.
   */
  datatype Faults = Faults(read: Option<IoError>, mkdir: Option<IoError>, write: Option<IoError>, written: Option<nat>)

  const InvalidInput := "invalid input parameters"
  const OldStrNotFound := "old_str not found in file"
  const CreatedPrefix := "successfully created file "
  const DirectoryFailure := "failed to create directory: "
  const FileFailure := "failed to create file: "

  /** The check made before the file system is touched. */
  predicate ValidInput(input: EditFileInput) {
    input.path != "" && input.newStr != input.oldStr
  }

  /**
   * The last step of createNewFile: writing `content` at `filePath` takes
   * the disk from (files0, dirs0) to (files, dirs). The write fails on a
   * fault or when the path is a directory, and the failure is wrapped in
   * FileFailure; a fault after the open leaves the file truncated.
   * Directories are never changed by it.
   */
  predicate Written(
    files0: map<string, string>, dirs0: set<string>, files: map<string, string>, dirs: set<string>,
    filePath: string, content: string, faults: Faults, r: Result<string, string>)
  {
    && dirs == dirs0
    && if faults.write.Some? then
         && r == Failure(FileFailure + faults.write.value.message)
         && files == if filePath in dirs0 then files0 else AfterFault(files0, filePath, content, faults.written)
       else if filePath in dirs0 then
         r == Failure(FileFailure + IsADirectory("open", filePath).message) && files == files0
       else
         r == Success(CreatedPrefix + filePath) && files == files0[filePath := content]
  }

  /**
   * Every outcome of createNewFile as written: with a directory part, the
   * directory made is `filePath` itself; a file already at `filePath` makes
   * MkdirAll fail, and otherwise the following write meets a directory.
   */
  predicate CreatedAsWritten(
    files0: map<string, string>, dirs0: set<string>, files: map<string, string>, dirs: set<string>,
    filePath: string, content: string, faults: Faults, r: Result<string, string>)
  {
    if Dir(filePath) == "." then
      Written(files0, dirs0, files, dirs, filePath, content, faults, r)
    else if faults.mkdir.Some? then
      r == Failure(DirectoryFailure + faults.mkdir.value.message) && files == files0 && dirs == dirs0
    else if filePath in files0 then
      r == Failure(DirectoryFailure + NotADirectory("mkdir", filePath).message) && files == files0 && dirs == dirs0
    else
      Written(files0, dirs0 + {filePath}, files, dirs, filePath, content, faults, r)
  }

  /**
   * Every outcome of createNewFile as intended: with a directory part, the
   * parent directory Dir(filePath) is made before the write.
   */
  predicate CreatedIntended(
    files0: map<string, string>, dirs0: set<string>, files: map<string, string>, dirs: set<string>,
    filePath: string, content: string, faults: Faults, r: Result<string, string>)
  {
    if Dir(filePath) == "." then
      Written(files0, dirs0, files, dirs, filePath, content, faults, r)
    else if faults.mkdir.Some? then
      r == Failure(DirectoryFailure + faults.mkdir.value.message) && files == files0 && dirs == dirs0
    else if Dir(filePath) in files0 then
      r == Failure(DirectoryFailure + NotADirectory("mkdir", Dir(filePath)).message) && files == files0 && dirs == dirs0
    else
      Written(files0, dirs0 + {Dir(filePath)}, files, dirs, filePath, content, faults, r)
  }

  /**
   * createNewFile as written never creates a file whose path has a
   * directory part: it fails and leaves every file as it was.
   */
  lemma NestedCreateFails(
    files0: map<string, string>, dirs0: set<string>, files: map<string, string>, dirs: set<string>,
    filePath: string, content: string, faults: Faults, r: Result<string, string>)
    requires CreatedAsWritten(files0, dirs0, files, dirs, filePath, content, faults, r)
    requires Dir(filePath) != "."
    ensures r.Failure? && files == files0
    ensures faults.mkdir.None? && filePath !in files0 ==> dirs == dirs0 + {filePath}
  {
    if faults.mkdir.None? && filePath !in files0 {
      assert filePath in dirs0 + {filePath};
    }
  }

  /**
   * createNewFile as intended creates any file that is not a directory and
   * whose parent is not a file, when no call faults, making the parent
   * directory on the way.
   */
  lemma IntendedCreateSucceeds(
    files0: map<string, string>, dirs0: set<string>, files: map<string, string>, dirs: set<string>,
    filePath: string, content: string, faults: Faults, r: Result<string, string>)
    requires CreatedIntended(files0, dirs0, files, dirs, filePath, content, faults, r)
    requires faults.mkdir.None? && faults.write.None?
    requires filePath != "." && filePath != "/" && filePath !in dirs0
    requires Dir(filePath) == "." || Dir(filePath) !in files0
    ensures r == Success(CreatedPrefix + filePath) && files == files0[filePath := content]
    ensures dirs == if Dir(filePath) == "." then dirs0 else dirs0 + {Dir(filePath)}
  {
    if Dir(filePath) != "." {
      DirIsNotPath(filePath);
    }
  }

  /**
   * createNewFile: when the path has a directory part, MkdirAll is called on
   * the path itself, so the following write then always fails.
   */
  method CreateNewFile(disk: Disk, filePath: string, content: string, faults: Faults) returns (r: Result<string, string>)
    requires disk.Valid()
    modifies disk
    ensures disk.Valid()
    ensures CreatedAsWritten(old(disk.files), old(disk.dirs), disk.files, disk.dirs, filePath, content, faults, r)
    ensures r.Success? ==> r.value == CreatedPrefix + filePath && disk.files == old(disk.files)[filePath := content]
    ensures r.Failure? ==>
      disk.files == old(disk.files) || disk.files == AfterFault(old(disk.files), filePath, content, faults.written)
    ensures Dir(filePath) != "." ==> r.Failure?
  {
    var dir := Dir(filePath);
    if dir != "." {
      var err := disk.MkdirAll(filePath, faults.mkdir);
      if err.Some? {
        return Failure(DirectoryFailure + err.value.message);
      }
    }
    var err := disk.WriteFile(filePath, content, faults.write, faults.written);
    if err.Some? {
      return Failure(FileFailure + err.value.message);
    }
    return Success(CreatedPrefix + filePath);
  }

  /**
   * EditFIle. `input` is the outcome of decoding the raw JSON input: the
   * decoded value, or the decoder's error message. Every read error is
   * returned as it is, and no directory is ever made.
   */
  method EditFile(disk: Disk, input: Result<EditFileInput, string>, faults: Faults) returns (r: Result<string, string>)
    requires disk.Valid() && PossibleReadFault(faults.read)
    modifies disk
    ensures disk.Valid()
    ensures input.Success? ==> disk.dirs == old(disk.dirs)
    ensures r.Success? ==> r.value == ""
    ensures input.Failure? ==>
      r == Failure(input.error) && disk.files == old(disk.files) && disk.dirs == old(disk.dirs)
    ensures input.Success? && !ValidInput(input.value) ==>
      r == Failure(InvalidInput) && disk.files == old(disk.files) && disk.dirs == old(disk.dirs)
    ensures input.Success? ==> disk.files - {input.value.path} == old(disk.files) - {input.value.path}
    ensures input.Success? && ValidInput(input.value) ==>
      var e := input.value;
      var read := old(disk.ReadFile(e.path, faults.read));
      && (read.Failure? ==>
            r == Failure(read.error.message) && disk.files == old(disk.files) && disk.dirs == old(disk.dirs))
      && (read.Success? && e.oldStr != "" && !Occurs(read.value, e.oldStr) ==>
            r == Failure(OldStrNotFound) && disk.files == old(disk.files) && disk.dirs == old(disk.dirs))
      && (read.Success? && (e.oldStr == "" || Occurs(read.value, e.oldStr)) ==>
            && r == Success("")
            && disk.dirs == old(disk.dirs)
            && (faults.write.None? ==> disk.files == old(disk.files)[e.path := ReplaceAll(read.value, e.oldStr, e.newStr)])
            && (faults.write.Some? ==>
                  disk.files == AfterFault(old(disk.files), e.path, ReplaceAll(read.value, e.oldStr, e.newStr), faults.written)))
    ensures input.Success? && ValidInput(input.value) && faults.read.None? && input.value.path !in old(disk.files) ==>
      r.Failure? && disk.files == old(disk.files) && disk.dirs == old(disk.dirs)
  {
    if input.Failure? {
      return Failure(input.error);
    }
    var editFileInput := input.value;
    if editFileInput.path == "" || editFileInput.newStr == editFileInput.oldStr {
      return Failure(InvalidInput);
    }

    var content := disk.ReadFile(editFileInput.path, faults.read);
    if content.Failure? {
      if IsExist(content.error) && editFileInput.oldStr == "" {
        // the call of createNewFile: never reached, as os.ReadFile never reports os.IsExist
        assert false;
      }
      return Failure(content.error.message);
    }

    var oldContent := content.value;
    var newContent := ReplaceAll(oldContent, editFileInput.oldStr, editFileInput.newStr);
    if editFileInput.oldStr != "" {
      ReplaceAllUnchangedIffAbsent(oldContent, editFileInput.oldStr, editFileInput.newStr);
    }
    if oldContent == newContent && editFileInput.oldStr != "" {
      return Failure(OldStrNotFound);
    }
    var err := disk.WriteFile(editFileInput.path, newContent, faults.write, faults.written);
    if err.Some? {
      return Success("");
    }
    return Success("");
  }

  // ---------------------------------------------------------------------------
  // The tool as evidently intended
  // ---------------------------------------------------------------------------

  /** createNewFile with the directory made being the file's parent rather than the file's own path. */
  method CreateNewFileIntended(disk: Disk, filePath: string, content: string, faults: Faults) returns (r: Result<string, string>)
    requires disk.Valid()
    modifies disk
    ensures disk.Valid()
    ensures CreatedIntended(old(disk.files), old(disk.dirs), disk.files, disk.dirs, filePath, content, faults, r)
    ensures r.Success? ==> r.value == CreatedPrefix + filePath && disk.files == old(disk.files)[filePath := content]
    ensures r.Failure? ==>
      disk.files == old(disk.files) || disk.files == AfterFault(old(disk.files), filePath, content, faults.written)
    ensures Dir(filePath) != "." && faults.mkdir.None? && r.Success? ==> disk.dirs == old(disk.dirs) + {Dir(filePath)}
    ensures
      && faults.mkdir.None? && faults.write.None?
      && filePath != "." && filePath != "/" && filePath !in old(disk.dirs)
      && (Dir(filePath) == "." || Dir(filePath) !in old(disk.files))
      ==> r == Success(CreatedPrefix + filePath)
  {
    var dir := Dir(filePath);
    if dir != "." {
      if filePath != "." && filePath != "/" {
        DirIsNotPath(filePath);
      }
      var err := disk.MkdirAll(dir, faults.mkdir);
      if err.Some? {
        return Failure(DirectoryFailure + err.value.message);
      }
    }
    var err := disk.WriteFile(filePath, content, faults.write, faults.written);
    if err.Some? {
      return Failure(FileFailure + err.value.message);
    }
    return Success(CreatedPrefix + filePath);
  }

  /**
   * EditFIle with a missing file (os.IsNotExist) taken to the create branch
   * and a failed write reported as the tool's error.
   */
  method EditFileIntended(disk: Disk, input: Result<EditFileInput, string>, faults: Faults) returns (r: Result<string, string>)
    requires disk.Valid() && PossibleReadFault(faults.read)
    modifies disk
    ensures disk.Valid()
    ensures input.Failure? ==>
      r == Failure(input.error) && disk.files == old(disk.files) && disk.dirs == old(disk.dirs)
    ensures input.Success? && !ValidInput(input.value) ==>
      r == Failure(InvalidInput) && disk.files == old(disk.files) && disk.dirs == old(disk.dirs)
    ensures input.Success? ==> disk.files - {input.value.path} == old(disk.files) - {input.value.path}
    ensures input.Success? && ValidInput(input.value) ==>
      var e := input.value;
      var read := old(disk.ReadFile(e.path, faults.read));
      && (read.Failure? && !(IsNotExist(read.error) && e.oldStr == "") ==>
            r == Failure(read.error.message) && disk.files == old(disk.files) && disk.dirs == old(disk.dirs))
      && (read.Failure? && IsNotExist(read.error) && e.oldStr == "" ==>
            CreatedIntended(old(disk.files), old(disk.dirs), disk.files, disk.dirs, e.path, e.newStr, faults, r))
      && (read.Success? && e.oldStr != "" && !Occurs(read.value, e.oldStr) ==>
            r == Failure(OldStrNotFound) && disk.files == old(disk.files) && disk.dirs == old(disk.dirs))
      && (read.Success? && (e.oldStr == "" || Occurs(read.value, e.oldStr)) ==>
            && disk.dirs == old(disk.dirs)
            && (faults.write.None? ==>
                  r == Success("") && disk.files == old(disk.files)[e.path := ReplaceAll(read.value, e.oldStr, e.newStr)])
            && (faults.write.Some? ==>
                  && r == Failure(faults.write.value.message)
                  && disk.files == AfterFault(old(disk.files), e.path, ReplaceAll(read.value, e.oldStr, e.newStr), faults.written)))
    ensures
      && input.Success? && ValidInput(input.value) && input.value.oldStr == ""
      && faults.read.None? && faults.mkdir.None? && faults.write.None?
      && input.value.path !in old(disk.files) && input.value.path !in old(disk.dirs)
      && input.value.path != "." && input.value.path != "/"
      && (Dir(input.value.path) == "." || Dir(input.value.path) !in old(disk.files))
      ==>
      r == Success(CreatedPrefix + input.value.path)
      && disk.files == old(disk.files)[input.value.path := input.value.newStr]
  {
    if input.Failure? {
      return Failure(input.error);
    }
    var editFileInput := input.value;
    if editFileInput.path == "" || editFileInput.newStr == editFileInput.oldStr {
      return Failure(InvalidInput);
    }

    var content := disk.ReadFile(editFileInput.path, faults.read);
    if content.Failure? {
      if IsNotExist(content.error) && editFileInput.oldStr == "" {
        r := CreateNewFileIntended(disk, editFileInput.path, editFileInput.newStr, faults);
        return;
      }
      return Failure(content.error.message);
    }

    var oldContent := content.value;
    var newContent := ReplaceAll(oldContent, editFileInput.oldStr, editFileInput.newStr);
    if editFileInput.oldStr != "" {
      ReplaceAllUnchangedIffAbsent(oldContent, editFileInput.oldStr, editFileInput.newStr);
    }
    if oldContent == newContent && editFileInput.oldStr != "" {
      return Failure(OldStrNotFound);
    }
    var err := disk.WriteFile(editFileInput.path, newContent, faults.write, faults.written);
    if err.Some? {
      return Failure(err.value.message);
    }
    return Success("");
  }
}

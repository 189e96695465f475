/** luna/mem-fs.go: `MemFS`, a universal file system over an `fstest.MapFS`
    whose methods update the map in place. Each method is proved to leave the
    storage and answer the error that module MapFs states for it. */
module LunaMemFs {
  import opened Wrappers
  import opened Errors
  import opened MapFs
  import GoPath
  import FsRelative

  class MemFS {
    var files: Files

    /** `NewMemFS`: empty storage. */
    constructor ()
      ensures files == map[]
    {
      files := map[];
    }

    method FileExists(name: string) returns (b: bool)
      ensures b <==> MapFs.FileExists(files, name)
    {
      b := name in files && !IsDir(files[name].mode);
    }

    method DirectoryExists(name: string) returns (b: bool)
      ensures b <==> MapFs.DirectoryExists(files, name)
    {
      b := name in files && IsDir(files[name].mode);
    }

    /** `Create`: an empty file with the file permissions. */
    method Create(name: string) returns (err: Option<Error>)
      modifies this
      ensures Outcome(err, files) == AddOutcome(old(files), name, MapFile([], PermsFile))
    {
      if StatFinds(files, name) {
        return Some(Bare(Exist));
      }
      files := files[name := MapFile([], PermsFile)];
      err := None;
    }

    method MakeDir(name: string, perm: FileMode) returns (err: Option<Error>)
      modifies this
      ensures Outcome(err, files) == MakeDirOutcome(old(files), name, perm)
    {
      if !GoPath.ValidPath(name) {
        return Some(NewInvalidPathError(name));
      }
      if name !in files {
        files := files[name := DirEntry(perm)];
      }
      err := None;
    }

    method MakeDirAll(name: string, perm: FileMode) returns (err: Option<Error>)
      modifies this
      ensures Outcome(err, files) == MakeDirAllOutcome(old(files), name, perm)
    {
      if !GoPath.ValidPath(name) {
        return Some(NewInvalidPathError(name));
      }
      files := AddPrefixDirs(files, name, perm);
      err := None;
    }

    /** `Ensure`, `Move`, `Change`, `Copy` and `CopyFS` are not implemented: they
        succeed and do nothing. */
    method Ensure(pathAs: FsRelative.PathAs) returns (at: string, err: Option<Error>)
      ensures at == "" && err == None
    {
      at, err := "", None;
    }

    method Move(from: string, to: string) returns (err: Option<Error>)
      ensures err == None
    {
      err := None;
    }

    method Change(from: string, to: string) returns (err: Option<Error>)
      ensures err == None
    {
      err := None;
    }

    method Copy(from: string, to: string) returns (err: Option<Error>)
      ensures err == None
    {
      err := None;
    }

    method CopyFS(dir: string) returns (err: Option<Error>)
      ensures err == None
    {
      err := None;
    }

    method Remove(name: string) returns (err: Option<Error>)
      modifies this
      ensures Outcome(err, files) == RemoveOutcome(old(files), name)
    {
      if name in files {
        files := files - {name};
        return None;
      }
      err := Some(Bare(NotExist));
    }

    method RemoveAll(path: string) returns (err: Option<Error>)
      modifies this
      ensures Outcome(err, files) == RemoveAllOutcome(old(files), path)
    {
      var matched := Matched(files, path);
      if matched == {} {
        return Some(Bare(NotExist));
      }
      files := DeleteKeys(files, matched);
      err := None;
    }

    method Rename(from: string, to: string) returns (err: Option<Error>)
      modifies this
      ensures Outcome(err, files) == RenameOutcome(old(files), from, to)
    {
      if from in files {
        var item := files[from];
        files := files - {from};
        files := files[to := item];
        return None;
      }
      err := Some(Bare(NotExist));
    }

    method WriteFile(name: string, data: seq<bv8>, perm: FileMode) returns (err: Option<Error>)
      modifies this
      ensures Outcome(err, files) == AddOutcome(old(files), name, MapFile(data, perm))
    {
      if StatFinds(files, name) {
        return Some(Bare(Exist));
      }
      files := files[name := MapFile(data, perm)];
      err := None;
    }
  }
}

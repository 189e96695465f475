/** internal/laboratory/traverse-fs.go: `TestTraverseFS`, the writable test file
    system over an `fstest.MapFS` used to build trees to traverse. */
module Laboratory {
  import opened Wrappers
  import opened Errors
  import opened MapFs
  import GoPath

  class TestTraverseFS {
    var files: Files

    constructor (files: Files)
      ensures this.files == files
    {
      this.files := files;
    }

    method FileExists(name: string) returns (b: bool)
      ensures b <==> MapFs.FileExists(files, name)
    {
      b := name in files && !IsDir(files[name].mode);
    }

    method DirectoryExists(name: string) returns (b: bool)
      ensures b <==> MapFs.DirectoryExists(files, name)
    {
      b := name in files && IsDir(files[name].mode);
    }

    /** `Create`: an empty file with the file permissions. */
    method Create(name: string) returns (err: Option<Error>)
      modifies this
      ensures Outcome(err, files) == AddOutcome(old(files), name, MapFile([], PermsFile))
    {
      if StatFinds(files, name) {
        return Some(Bare(Exist));
      }
      files := files[name := MapFile([], PermsFile)];
      err := None;
    }

    method MakeDir(name: string, perm: FileMode) returns (err: Option<Error>)
      modifies this
      ensures Outcome(err, files) == MakeDirOutcome(old(files), name, perm)
    {
      if !GoPath.ValidPath(name) {
        return Some(NewInvalidPathError(name));
      }
      if name !in files {
        files := files[name := DirEntry(perm)];
      }
      err := None;
    }

    method MakeDirAll(name: string, perm: FileMode) returns (err: Option<Error>)
      modifies this
      ensures Outcome(err, files) == MakeDirAllOutcome(old(files), name, perm)
    {
      if !GoPath.ValidPath(name) {
        return Some(NewInvalidPathError(name));
      }
      files := AddPrefixDirs(files, name, perm);
      err := None;
    }

    method WriteFile(name: string, data: seq<bv8>, perm: FileMode) returns (err: Option<Error>)
      modifies this
      ensures Outcome(err, files) == AddOutcome(old(files), name, MapFile(data, perm))
    {
      if StatFinds(files, name) {
        return Some(Bare(Exist));
      }
      files := files[name := MapFile(data, perm)];
      err := None;
    }
  }
}

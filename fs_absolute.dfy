/** fs-absolute.go: the file system over native absolute paths. Its existence
    queries stat the path as given; `Ensure` creates a directory with `MkdirAll`
    and then works out the path to hand back. */
module FsAbsolute {
  import opened Wrappers
  import opened Errors
  import opened OsDisk
  import GoPath
  import AbsoluteCalc
  import FsRelative

  predicate FileExistsAt(items: Items, name: string) {
    FileAt(items, name)
  }

  predicate DirectoryExistsAt(items: Items, name: string) {
    DirAt(items, name)
  }

  /** Both queries fail when `Stat` fails, and never hold together. */
  lemma ExistsExclusive(items: Items, name: string)
    ensures !(FileExistsAt(items, name) && DirectoryExistsAt(items, name))
    ensures Lookup(items, name).None? ==> !FileExistsAt(items, name) && !DirectoryExistsAt(items, name)
  {
  }

  /** `Ensure`: as a file, create the directory part, then hand back the name if
      that file exists (dropping any MkdirAll error) or the cleaned join of its two
      parts; as a directory, create the name and hand back the cleaned join of it
      with the default. */
  function EnsureEffect(items: Items, pathAs: FsRelative.PathAs): (string, Outcome) {
    if pathAs.asFile then
      var (directory, file) := AbsoluteCalc.Split(pathAs.name);
      var made := MkdirAllOutcome(items, directory);
      if FileExistsAt(made.items, pathAs.name) then (pathAs.name, Outcome(None, made.items))
      else (AbsoluteCalc.Clean(AbsoluteCalc.Join([directory, file])), made)
    else
      (AbsoluteCalc.Clean(AbsoluteCalc.Join([pathAs.name, pathAs.default])), MkdirAllOutcome(items, pathAs.name))
  }

  /** As a directory: the result is the cleaned join of name and default, and a
      success leaves the name a directory. */
  lemma EnsureDirectory(items: Items, pathAs: FsRelative.PathAs)
    requires !pathAs.asFile
    ensures var (at, o) := EnsureEffect(items, pathAs);
            at == GoPath.Clean(GoPath.Join([pathAs.name, pathAs.default])) &&
            o == MkdirAllOutcome(items, pathAs.name) &&
            (o.err == None ==> DirectoryExistsAt(o.items, pathAs.name))
  {
  }

  /** As a file that already exists: the name comes back unchanged with no error,
      and the file is still there. */
  lemma EnsureExistingFile(items: Items, pathAs: FsRelative.PathAs)
    requires pathAs.asFile && FileExistsAt(items, pathAs.name)
    ensures var (at, o) := EnsureEffect(items, pathAs);
            at == pathAs.name && o.err == None && FileExistsAt(o.items, pathAs.name)
  {
    MkdirAllKeepsFiles(items, GoPath.Split(pathAs.name).0, pathAs.name);
  }

  /** As a file that does not exist: the result is the name cleaned, returned with
      the error of creating its directory part. */
  lemma EnsureNewFile(items: Items, pathAs: FsRelative.PathAs)
    requires pathAs.asFile && !FileExistsAt(items, pathAs.name)
    ensures var (at, o) := EnsureEffect(items, pathAs);
            at == GoPath.Clean(pathAs.name) &&
            o == MkdirAllOutcome(items, GoPath.Split(pathAs.name).0)
  {
    MkdirAllKeepsFiles(items, GoPath.Split(pathAs.name).0, pathAs.name);
    GoPath.CleanJoinOfSplit(pathAs.name);
  }

  /** `absoluteFS`: the file system over the native storage. */
  class AbsoluteFS {
    const disk: Disk

    constructor (disk: Disk)
      ensures this.disk == disk
    {
      this.disk := disk;
    }

    method FileExists(name: string) returns (b: bool)
      ensures b <==> FileExistsAt(disk.items, name)
    {
      var info, err := disk.Stat(name);
      b := err.None? && !info.value.Directory?;
    }

    method DirectoryExists(name: string) returns (b: bool)
      ensures b <==> DirectoryExistsAt(disk.items, name)
    {
      var info, err := disk.Stat(name);
      b := err.None? && info.value.Directory?;
    }

    method Ensure(pathAs: FsRelative.PathAs) returns (at: string, err: Option<Error>)
      modifies disk
      ensures (at, Outcome(err, disk.items)) == EnsureEffect(old(disk.items), pathAs)
    {
      if pathAs.asFile {
        var (directory, file) := AbsoluteCalc.Split(pathAs.name);
        err := disk.MkdirAll(directory);
        var present := FileExists(pathAs.name);
        if present {
          return pathAs.name, None;
        }
        return AbsoluteCalc.Clean(AbsoluteCalc.Join([directory, file])), err;
      }
      err := disk.MkdirAll(pathAs.name);
      at := AbsoluteCalc.Clean(AbsoluteCalc.Join([pathAs.name, pathAs.default]));
    }
  }
}

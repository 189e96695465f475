/** ensure-path-at.go: make sure the directory of a path exists and hand back the
    file path, with a default file name when the path names a directory. */
module EnsurePathAt {
  import opened Wrappers
  import opened Errors
  import opened Strings
  import opened OsDisk
  import GoPath
  import RelativeCalc
  import ExistsInFs
  import FsRelative

  /** The directory and the file: a path ending in the separator is a directory
      and takes the default name; any other path is split at its last separator. */
  function Parts(path: string, defaultFilename: string): (r: (string, string))
    ensures HasSuffix(path, [GoPath.Separator]) ==> r == (path, defaultFilename)
    ensures !HasSuffix(path, [GoPath.Separator]) ==>
              r.0 + r.1 == path && GoPath.Separator !in r.1 && (path != "" ==> r.1 != "")
  {
    if HasSuffix(path, [GoPath.Separator]) then (path, defaultFilename)
    else GoPath.Split(path)
  }

  /** The path handed back: the two parts joined and cleaned. */
  function At(path: string, defaultFilename: string): string {
    var (directory, file) := Parts(path, defaultFilename);
    GoPath.Clean(GoPath.Join([directory, file]))
  }

  /** A file path comes back cleaned; a directory path comes back as the cleaned
      path followed by the default name. */
  lemma AtIsCleanedPath(path: string, defaultFilename: string)
    ensures !HasSuffix(path, [GoPath.Separator]) ==> At(path, defaultFilename) == GoPath.Clean(path)
    ensures HasSuffix(path, [GoPath.Separator]) ==>
              At(path, defaultFilename) == GoPath.Clean(path + defaultFilename)
  {
    if !HasSuffix(path, [GoPath.Separator]) {
      GoPath.CleanJoinOfSplit(path);
    } else {
      var head := path[..|path| - 1];
      assert path == head + [GoPath.Separator];
      GoPath.JoinTwo(path, defaultFilename);
      assert path + [GoPath.Separator] + defaultFilename
             == head + [GoPath.Separator] + [GoPath.Separator] + defaultFilename;
      assert path + defaultFilename == head + [GoPath.Separator] + defaultFilename;
      GoPath.CleanDoubleSeparator(head, defaultFilename);
      GoPath.CleanIdempotent(path + defaultFilename);
    }
  }

  /** A valid file path such as "home/prodigy/logs/test.log" comes back unchanged. */
  lemma AtValidFile(path: string, defaultFilename: string)
    requires GoPath.ValidPath(path)
    ensures At(path, defaultFilename) == path
  {
    GoPath.ValidPathEnds(path);
    AtIsCleanedPath(path, defaultFilename);
    RelativeCalc.CleanValid(path);
  }

  /** A directory path such as "home/prodigy/logs/" gives the directory followed by
      the default name, "home/prodigy/logs/default-test.log", whenever that is valid. */
  lemma AtValidDirectory(directory: string, defaultFilename: string)
    requires GoPath.ValidPath(directory + [GoPath.Separator] + defaultFilename)
    ensures At(directory + [GoPath.Separator], defaultFilename) == directory + [GoPath.Separator] + defaultFilename
  {
    var path := directory + [GoPath.Separator];
    assert HasSuffix(path, [GoPath.Separator]);
    AtIsCleanedPath(path, defaultFilename);
    RelativeCalc.CleanValid(path + defaultFilename);
  }

  /** The directory is made (on the given relative file system, only when it is
      not already a directory there) and the file path handed back. With no file
      system given the native storage is used directly. */
  method EnsurePathAt(path: string, defaultFilename: string, fS: FsRelative.RelativeFS?, native: Disk)
    returns (at: string, err: Option<Error>)
    requires fS != null ==> fS.Valid()
    modifies if fS != null then {fS.disk} else {native}
    ensures at == At(path, defaultFilename)
    ensures fS != null ==>
              var directory := Parts(path, defaultFilename).0;
              Outcome(err, fS.disk.items) ==
                if ExistsInFs.DirectoryExists(fS.root, old(fS.disk.items), directory) then Outcome(None, old(fS.disk.items))
                else FsRelative.MakeDirAllEffect(fS.root, old(fS.disk.items), directory)
    ensures fS == null ==> Outcome(err, native.items) == MkdirAllOutcome(old(native.items), Parts(path, defaultFilename).0)
  {
    var directory := Parts(path, defaultFilename).0;
    at, err := At(path, defaultFilename), None;
    if fS != null {
      if !ExistsInFs.DirectoryExists(fS.root, fS.disk.items, directory) {
        err := fS.MakeDirAll(directory);
      }
    } else {
      err := native.MkdirAll(directory);
    }
  }

  /** On the relative file system the directory part of any path is refused as
      a name: it is empty or ends in the separator, and either way has an empty
      element. So whenever that directory is missing, `EnsurePathAt` fails with
      `InvalidPath` and leaves storage alone. */
  lemma RelativeDirectoryRefused(root: string, items: Items, path: string, defaultFilename: string)
    ensures var directory := Parts(path, defaultFilename).0;
            FsRelative.MakeDirAllEffect(root, items, directory) == Outcome(Some(InvalidPath(directory)), items)
  {
    var directory := Parts(path, defaultFilename).0;
    if directory == "" {
      GoPath.EmptyInvalid();
    } else {
      assert directory[|directory| - 1] == GoPath.Separator;
      var head := directory[..|directory| - 1];
      assert directory == head + [GoPath.Separator];
      GoPath.TrailingInvalid(head);
    }
  }
}

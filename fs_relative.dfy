/** fs-relative.go: the file system rooted at a fixed absolute path. Names are
    root-relative and must satisfy `io/fs.ValidPath`; each operation checks its
    name, consults the existence queries, and makes at most one storage call on
    the root joined with the name. The `...Effect` functions state each
    operation's answer and new storage; class RelativeFS carries them out. */
module FsRelative {
  import opened Wrappers
  import opened Errors
  import opened OsDisk
  import opened ExistsInFs
  import opened BaseOp
  import GoPath
  import RelativeCalc
  import FsUtils
  import MoveDispatch
  import ChangeDispatch
  import FsMover
  import FsChanger

  /** `PathAs` (nefilim-defs.go): what `Ensure` should make of `name`. */
  datatype PathAs = PathAs(name: string, default: string, asFile: bool)

  /** `SplitParent`: the parent (as `Parent`) and the text after the last '/'. */
  function SplitParent(path: string): (r: (string, string))
    ensures FsUtils.Delimiter !in r.1
    ensures FsUtils.Delimiter in path ==> FsUtils.Join([r.0, r.1]) == path
    ensures FsUtils.Delimiter !in path ==> r == ("", path)
  {
    var parent := FsUtils.Parent(path);
    if FsUtils.Delimiter in path then
      FsUtils.ParentJoin(path);
      (parent, path[|parent| + 1..])
    else (parent, path)
  }

  function MakeDirEffect(root: string, items: Items, name: string): Outcome {
    if !GoPath.ValidPath(name) then Outcome(Some(NewInvalidPathError(name)), items)
    else if DirectoryExists(root, items, name) then Outcome(None, items)
    else MkdirOutcome(items, StatPath(root, name))
  }

  function MakeDirAllEffect(root: string, items: Items, name: string): Outcome {
    if !GoPath.ValidPath(name) then Outcome(Some(NewInvalidPathError(name)), items)
    else if DirectoryExists(root, items, name) then Outcome(None, items)
    else MkdirAllOutcome(items, StatPath(root, name))
  }

  function EnsureEffect(root: string, items: Items, pathAs: PathAs): (string, Outcome) {
    if !GoPath.ValidPath(pathAs.name) then ("", Outcome(Some(NewInvalidPathError(pathAs.name)), items))
    else if FileExists(root, items, pathAs.name) then (RelativeCalc.Split(pathAs.name).1, Outcome(None, items))
    else if DirectoryExists(root, items, pathAs.name) then (pathAs.default, Outcome(None, items))
    else if pathAs.asFile then
      var (directory, file) := SplitParent(pathAs.name);
      (file, MakeDirAllEffect(root, items, directory))
    else (pathAs.default, MakeDirAllEffect(root, items, pathAs.name))
  }

  function CreateEffect(root: string, overwrite: bool, items: Items, name: string): Outcome {
    if !GoPath.ValidPath(name) then Outcome(Some(NewInvalidPathError(name)), items)
    else if !overwrite && FileExists(root, items, name) then Outcome(Some(Bare(Exist)), items)
    else WriteOutcome(items, StatPath(root, name), [])
  }

  function WriteFileEffect(root: string, items: Items, name: string, data: seq<bv8>): Outcome {
    if !GoPath.ValidPath(name) then Outcome(Some(NewInvalidPathError(name)), items)
    else WriteOutcome(items, StatPath(root, name), data)
  }

  function RemoveEffect(root: string, items: Items, name: string): Outcome {
    if !GoPath.ValidPath(name) then Outcome(Some(NewInvalidPathError(name)), items)
    else RemoveOutcome(items, StatPath(root, RelativeCalc.Clean(name)))
  }

  function RemoveAllEffect(root: string, items: Items, name: string): Outcome {
    if !GoPath.ValidPath(name) then Outcome(Some(NewInvalidPathError(name)), items)
    else RemoveAllOutcome(items, StatPath(root, RelativeCalc.Clean(name)))
  }

  /** `MakeDir` and `MakeDirAll`: an invalid name is rejected and an existing
      directory left alone, neither touching storage; otherwise a success leaves
      the directory in place. Doing it twice is doing it once. */
  lemma MakeDirGuards(root: string, items: Items, name: string)
    ensures !GoPath.ValidPath(name) ==>
              MakeDirEffect(root, items, name) == MakeDirAllEffect(root, items, name)
              == Outcome(Some(InvalidPath(name)), items)
    ensures GoPath.ValidPath(name) && DirectoryExists(root, items, name) ==>
              MakeDirEffect(root, items, name) == MakeDirAllEffect(root, items, name) == Outcome(None, items)
    ensures MakeDirEffect(root, items, name).err == None ==>
              DirectoryExists(root, MakeDirEffect(root, items, name).items, name)
    ensures MakeDirAllEffect(root, items, name).err == None ==>
              DirectoryExists(root, MakeDirAllEffect(root, items, name).items, name)
    ensures var once := MakeDirAllEffect(root, items, name);
            once.err == None ==> MakeDirAllEffect(root, once.items, name) == Outcome(None, once.items)
  {
  }

  /** `Ensure`, case by case. */
  lemma EnsureCases(root: string, items: Items, pathAs: PathAs)
    ensures var (at, o) := EnsureEffect(root, items, pathAs);
            (!GoPath.ValidPath(pathAs.name) ==> at == "" && IsInvalidPathError(o.err) && o.items == items) &&
            (GoPath.ValidPath(pathAs.name) && FileExists(root, items, pathAs.name) ==>
               at == RelativeCalc.Base(pathAs.name) && o == Outcome(None, items) &&
               (FsUtils.Delimiter !in pathAs.name ==> at == pathAs.name)) &&
            (GoPath.ValidPath(pathAs.name) && DirectoryExists(root, items, pathAs.name) ==>
               at == pathAs.default && o == Outcome(None, items)) &&
            (GoPath.ValidPath(pathAs.name) && !Exists(root, items, pathAs.name) && !pathAs.asFile ==>
               at == pathAs.default && (o.err == None ==> DirectoryExists(root, o.items, pathAs.name))) &&
            (GoPath.ValidPath(pathAs.name) && !Exists(root, items, pathAs.name) && pathAs.asFile ==>
               at == SplitParent(pathAs.name).1 && FsUtils.Delimiter !in at &&
               (FsUtils.Delimiter in pathAs.name ==> at == RelativeCalc.Base(pathAs.name)) &&
               o == MakeDirAllEffect(root, items, SplitParent(pathAs.name).0) &&
               (o.err == None ==> DirectoryExists(root, o.items, SplitParent(pathAs.name).0)))
  {
    ExistsExclusive(root, items, pathAs.name);
    MakeDirGuards(root, items, pathAs.name);
    GoPath.EmptyInvalid();
    if GoPath.ValidPath(pathAs.name) && !Exists(root, items, pathAs.name) && pathAs.asFile {
      EnsureMissingFile(root, items, pathAs);
    }
  }

  /** The missing-file case of `Ensure`: the name after the last separator comes
      back, and the parent is made. */
  lemma EnsureMissingFile(root: string, items: Items, pathAs: PathAs)
    requires GoPath.ValidPath(pathAs.name) && !Exists(root, items, pathAs.name) && pathAs.asFile
    ensures var (at, o) := EnsureEffect(root, items, pathAs);
            at == SplitParent(pathAs.name).1 && FsUtils.Delimiter !in at &&
            (FsUtils.Delimiter in pathAs.name ==> at == RelativeCalc.Base(pathAs.name)) &&
            o == MakeDirAllEffect(root, items, SplitParent(pathAs.name).0) &&
            (o.err == None ==> DirectoryExists(root, o.items, SplitParent(pathAs.name).0))
  {
    ExistsExclusive(root, items, pathAs.name);
    MakeDirGuards(root, items, SplitParent(pathAs.name).0);
  }

  /** A top-level file name cannot be ensured as a file: its parent is "", which
      is not a valid path, so creating the parent fails with InvalidPath. */
  lemma EnsureTopLevelFile(root: string, items: Items, pathAs: PathAs)
    requires GoPath.ValidPath(pathAs.name) && FsUtils.Delimiter !in pathAs.name
    requires !Exists(root, items, pathAs.name) && pathAs.asFile
    ensures EnsureEffect(root, items, pathAs) == (pathAs.name, Outcome(Some(InvalidPath("")), items))
  {
    ExistsExclusive(root, items, pathAs.name);
    GoPath.EmptyInvalid();
  }

  /** `Create`: under the tentative policy an existing file is refused with
      `ErrExist` and left as it is; a success leaves an empty file; and it
      succeeds exactly for a valid name that is no directory, is not refused by
      the policy, and is an existing file or has a directory for its parent. */
  lemma CreateGuard(root: string, overwrite: bool, items: Items, name: string)
    ensures GoPath.ValidPath(name) && !overwrite && FileExists(root, items, name) ==>
              CreateEffect(root, overwrite, items, name) == Outcome(Some(Bare(Exist)), items)
    ensures Is(CreateEffect(root, overwrite, items, name).err, Exist) ==> !overwrite && FileExists(root, items, name)
    ensures var o := CreateEffect(root, overwrite, items, name);
            o.err == None ==> Lookup(o.items, StatPath(root, name)) == Some(File([]))
    ensures CreateEffect(root, overwrite, items, name).err == None <==>
              GoPath.ValidPath(name) && !DirectoryExists(root, items, name) &&
              !(!overwrite && FileExists(root, items, name)) &&
              (FileExists(root, items, name) || ParentIsDir(items, StatPath(root, name)))
  {
    StatPathShape(root, name);
  }

  /** `WriteFile` succeeds exactly for a valid name that is no directory and is
      an existing file or has a directory for its parent; a success leaves
      exactly `data` under the name, and a failure changes nothing. */
  lemma WriteFileStores(root: string, items: Items, name: string, data: seq<bv8>)
    ensures var o := WriteFileEffect(root, items, name, data);
            (o.err == None <==>
               GoPath.ValidPath(name) && !DirectoryExists(root, items, name) &&
               (FileExists(root, items, name) || ParentIsDir(items, StatPath(root, name)))) &&
            (o.err == None ==> Lookup(o.items, StatPath(root, name)) == Some(File(data))) &&
            (o.err != None ==> o.items == items)
  {
    StatPathShape(root, name);
  }

  /** `Remove` and `RemoveAll` reject an invalid name without touching storage;
      on a valid name they act on the very entry the existence queries see, and a
      success leaves nothing there. A name whose way runs through a file is
      refused with `ENOTDIR`. The name "." reaches the OS as the root followed
      by "/.", which both OS calls refuse. */
  lemma RemoveGuards(root: string, items: Items, name: string)
    ensures !GoPath.ValidPath(name) ==>
              RemoveEffect(root, items, name) == RemoveAllEffect(root, items, name)
              == Outcome(Some(InvalidPath(name)), items)
    ensures RemoveEffect(root, items, name).err == None ==> !Exists(root, RemoveEffect(root, items, name).items, name)
    ensures GoPath.ValidPath(name) && name != "." && !ThroughFile(root, items, name) ==>
              RemoveAllEffect(root, items, name).err == None &&
              !Exists(root, RemoveAllEffect(root, items, name).items, name)
    ensures GoPath.ValidPath(name) && name != "." && ThroughFile(root, items, name) ==>
              RemoveAllEffect(root, items, name) ==
                Outcome(Some(PathError("RemoveAll", StatPath(root, name), NotDirectory)), items) &&
              RemoveEffect(root, items, name) ==
                Outcome(Some(PathError("remove", StatPath(root, name), NotDirectory)), items)
    ensures name == "." ==>
              RemoveAllEffect(root, items, name) == Outcome(Some(PathError("RemoveAll", root + "/.", Invalid)), items) &&
              RemoveEffect(root, items, name).items == items && RemoveEffect(root, items, name).err.Some?
    ensures name == "." && !ThroughFile(root, items, name) && DirectoryExists(root, items, name) ==>
              RemoveEffect(root, items, name) == Outcome(Some(PathError("remove", root + "/.", Invalid)), items)
    ensures GoPath.ValidPath(name) && !Exists(root, items, name) && !ThroughFile(root, items, name) ==>
              Is(RemoveEffect(root, items, name).err, NotExist)
  {
    if GoPath.ValidPath(name) {
      RelativeCalc.CleanValid(name);
      if name != "." {
        RemoveValidName(root, items, name);
      } else {
        RemoveDotName(root, items);
      }
    }
  }

  /** The name "." reaches the OS as the root followed by "/.", which both OS
      calls refuse without touching storage: `Remove` of a root directory is
      `EINVAL`, as rmdir reports it, a root that is or lies below a file is
      `ENOTDIR`, and a missing root is `ErrNotExist`. */
  lemma RemoveDotName(root: string, items: Items)
    ensures RemoveAllEffect(root, items, ".") == Outcome(Some(PathError("RemoveAll", root + "/.", Invalid)), items)
    ensures RemoveEffect(root, items, ".").items == items && RemoveEffect(root, items, ".").err.Some?
    ensures !Exists(root, items, ".") && !ThroughFile(root, items, ".") ==>
              Is(RemoveEffect(root, items, ".").err, NotExist)
    ensures ThroughFile(root, items, ".") ==>
              RemoveEffect(root, items, ".") == Outcome(Some(PathError("remove", root + "/.", NotDirectory)), items)
    ensures !ThroughFile(root, items, ".") && DirectoryExists(root, items, ".") ==>
              RemoveEffect(root, items, ".") == Outcome(Some(PathError("remove", root + "/.", Invalid)), items)
    ensures !ThroughFile(root, items, ".") && FileExists(root, items, ".") ==>
              RemoveEffect(root, items, ".") == Outcome(Some(PathError("remove", root + "/.", NotDirectory)), items)
  {
    DotPath(root);
    var p := root + "/.";
    assert RemoveAllEffect(root, items, ".") == RemoveAllOutcome(items, p);
    assert RemoveEffect(root, items, ".") == RemoveOutcome(items, p);
    if !Exists(root, items, ".") && !ThroughFile(root, items, ".") {
      assert Key(p) !in items && FileAncestor(items, Key(p)).None?;
    }
  }

  /** The name "." is valid, is its own clean form, and reaches the OS as the
      root followed by "/.". */
  lemma DotPath(root: string)
    ensures GoPath.ValidPath(".") && RelativeCalc.Clean(".") == "."
    ensures StatPath(root, ".") == root + "/." && EndsWithDot(root + "/.")
  {
    RelativeCalc.CleanValid(".");
    StatPathShape(root, ".");
    var p := root + "/.";
    assert p[|p| - 1] == '.' && p[|p| - 2] == GoPath.Separator;
    assert root + "/" + "." == p;
  }

  /** On a valid name other than ".", `RemoveAll` clears the name unless its way
      runs through a file, where both calls fail with `ENOTDIR`; `Remove` of a
      missing name is `ErrNotExist`; a successful `Remove` leaves nothing there. */
  lemma RemoveValidName(root: string, items: Items, name: string)
    requires GoPath.ValidPath(name) && name != "."
    ensures !ThroughFile(root, items, name) ==>
              RemoveAllEffect(root, items, name).err == None &&
              !Exists(root, RemoveAllEffect(root, items, name).items, name)
    ensures ThroughFile(root, items, name) ==>
              RemoveAllEffect(root, items, name) ==
                Outcome(Some(PathError("RemoveAll", StatPath(root, name), NotDirectory)), items) &&
              RemoveEffect(root, items, name) ==
                Outcome(Some(PathError("remove", StatPath(root, name), NotDirectory)), items)
    ensures !Exists(root, items, name) && !ThroughFile(root, items, name) ==>
              Is(RemoveEffect(root, items, name).err, NotExist)
    ensures RemoveEffect(root, items, name).err == None ==> !Exists(root, RemoveEffect(root, items, name).items, name)
  {
    RelativeCalc.CleanValid(name);
    RemovePathShape(root, name);
    var p := StatPath(root, name);
    assert RemoveEffect(root, items, name) == RemoveOutcome(items, p);
    assert RemoveAllEffect(root, items, name) == RemoveAllOutcome(items, p);
    if ThroughFile(root, items, name) {
      OsDisk.ThroughFileRefused(items, p);
    } else {
      OsDisk.RemoveAllClears(items, p);
    }
  }

  /** A valid name other than "." reaches the OS as a non-empty path that does
      not end in ".". */
  lemma RemovePathShape(root: string, name: string)
    requires GoPath.ValidPath(name) && name != "."
    ensures StatPath(root, name) != "" && !EndsWithDot(StatPath(root, name))
  {
    StatPathShape(root, name);
    GoPath.ValidPathEnds(name);
    if |name| >= 2 && name[|name| - 1] == '.' && name[|name| - 2] == GoPath.Separator {
      assert name == name[..|name| - 2] + [GoPath.Separator] + ".";
      GoPath.DotLastInvalid(name[..|name| - 2]);
    }
  }

  /** The relative file system: `mutatorFS` composed of its parts. */
  class RelativeFS {
    const root: string
    const overwrite: bool
    const disk: Disk
    const existence: ExistsInFS
    const mover: FsMover.LazyMover
    const changer: FsChanger.LazyChanger

    /** The lazily built mover and changer work on this file system's root,
        policy and storage. */
    ghost predicate Valid()
      reads this, mover, mover.mover, changer, changer.changer
    {
      existence.root == root && existence.disk == disk &&
      mover.Valid() && changer.Valid() &&
      (mover.mover != null ==>
         mover.mover.root == root && mover.mover.overwrite == overwrite && mover.mover.fS == existence) &&
      (changer.changer != null ==>
         changer.changer.root == root && changer.changer.overwrite == overwrite && changer.changer.fS == existence)
    }

    /** `NewUniversalFS`: nothing is built for Move and Change until first used. */
    constructor (root: string, overwrite: bool, disk: Disk)
      ensures this.root == root && this.overwrite == overwrite && this.disk == disk
      ensures Valid() && mover.mover == null && changer.changer == null
      ensures fresh(mover) && fresh(changer)
    {
      this.root := root;
      this.overwrite := overwrite;
      this.disk := disk;
      existence := new ExistsInFS(root, disk);
      mover := new FsMover.LazyMover();
      changer := new FsChanger.LazyChanger();
    }

    method MakeDir(name: string) returns (err: Option<Error>)
      requires Valid()
      modifies disk
      ensures Outcome(err, disk.items) == MakeDirEffect(root, old(disk.items), name)
    {
      if !GoPath.ValidPath(name) {
        return Some(NewInvalidPathError(name));
      }
      if DirectoryExists(root, disk.items, name) {
        return None;
      }
      err := disk.Mkdir(StatPath(root, name));
    }

    method MakeDirAll(name: string) returns (err: Option<Error>)
      requires Valid()
      modifies disk
      ensures Outcome(err, disk.items) == MakeDirAllEffect(root, old(disk.items), name)
    {
      if !GoPath.ValidPath(name) {
        return Some(NewInvalidPathError(name));
      }
      if DirectoryExists(root, disk.items, name) {
        return None;
      }
      err := disk.MkdirAll(StatPath(root, name));
    }

    method Ensure(pathAs: PathAs) returns (at: string, err: Option<Error>)
      requires Valid()
      modifies disk
      ensures (at, Outcome(err, disk.items)) == EnsureEffect(root, old(disk.items), pathAs)
    {
      if !GoPath.ValidPath(pathAs.name) {
        return "", Some(NewInvalidPathError(pathAs.name));
      }
      if FileExists(root, disk.items, pathAs.name) {
        var (_, file) := RelativeCalc.Split(pathAs.name);
        return file, None;
      }
      if DirectoryExists(root, disk.items, pathAs.name) {
        return pathAs.default, None;
      }
      if pathAs.asFile {
        var (directory, file) := SplitParent(pathAs.name);
        err := MakeDirAll(directory);
        return file, err;
      }
      err := MakeDirAll(pathAs.name);
      at := pathAs.default;
    }

    method Create(name: string) returns (err: Option<Error>)
      requires Valid()
      modifies disk
      ensures Outcome(err, disk.items) == CreateEffect(root, overwrite, old(disk.items), name)
    {
      if !GoPath.ValidPath(name) {
        return Some(NewInvalidPathError(name));
      }
      if !overwrite && FileExists(root, disk.items, name) {
        return Some(Bare(Exist));
      }
      err := disk.WriteFile(StatPath(root, name), []);
    }

    method WriteFile(name: string, data: seq<bv8>) returns (err: Option<Error>)
      requires Valid()
      modifies disk
      ensures Outcome(err, disk.items) == WriteFileEffect(root, old(disk.items), name, data)
    {
      if !GoPath.ValidPath(name) {
        return Some(NewInvalidPathError(name));
      }
      err := disk.WriteFile(StatPath(root, name), data);
    }

    method Remove(name: string) returns (err: Option<Error>)
      modifies disk
      ensures Outcome(err, disk.items) == RemoveEffect(root, old(disk.items), name)
    {
      if !GoPath.ValidPath(name) {
        return Some(NewInvalidPathError(name));
      }
      err := disk.Remove(StatPath(root, RelativeCalc.Clean(name)));
    }

    method RemoveAll(name: string) returns (err: Option<Error>)
      modifies disk
      ensures Outcome(err, disk.items) == RemoveAllEffect(root, old(disk.items), name)
    {
      if !GoPath.ValidPath(name) {
        return Some(NewInvalidPathError(name));
      }
      err := disk.RemoveAll(StatPath(root, RelativeCalc.Clean(name)));
    }

    /** `Rename`: no guard; the OS renames the root-joined names. */
    method Rename(from: string, to: string) returns (err: Option<Error>)
      modifies disk
      ensures Outcome(err, disk.items) == RenameOutcome(old(disk.items), StatPath(root, from), StatPath(root, to))
      ensures disk.renames == old(disk.renames) + [(StatPath(root, from), StatPath(root, to))]
    {
      err := disk.Rename(StatPath(root, from), StatPath(root, to));
    }

    /** `Copy` and `CopyFS` are not implemented: they always fail and touch nothing. */
    method Copy(from: string, to: string) returns (err: Option<Error>)
      ensures err.Some? && Unwrap(err.value).None?
    {
      err := Some(Failure("copy not implemented yet"));
    }

    method CopyFS(dir: string) returns (err: Option<Error>)
      ensures err.Some? && Unwrap(err.value).None?
    {
      err := Some(Failure("copyFS not implemented yet"));
    }

    /** `Move`: delegated to the mover built for this root and policy. */
    method Move(from: string, to: string) returns (err: Option<Error>)
      requires Valid()
      modifies mover, disk
      ensures Valid()
      ensures Carried(disk, MoveDispatch.MovePlan(overwrite, root, old(disk.items), from, to), err)
    {
      var m := mover.Instance(root, overwrite, existence);
      err := m.Move(from, to);
    }

    /** `Change`: delegated to the changer built for this root and policy. */
    method Change(from: string, to: string) returns (err: Option<Error>)
      requires Valid()
      modifies changer, disk
      ensures Valid()
      ensures Carried(disk, ChangeDispatch.ChangePlan(overwrite, root, old(disk.items), from, to), err)
    {
      var c := changer.Instance(root, overwrite, existence);
      err := c.Change(from, to);
    }
  }
}

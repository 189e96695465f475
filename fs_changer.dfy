/** fs-changer.go as objects: a changer whose `create` fills its `actions` table,
    the `rename` and `rejectFileOverwrite` handlers, and the lazily built changer
    of a file system. Every method is proved to carry out the plan module
    ChangeDispatch assigns it. */
module FsChanger {
  import opened Wrappers
  import opened Errors
  import opened OsDisk
  import opened ExistsInFs
  import opened BaseOp
  import opened ChangeDispatch
  import GoPath
  import MoveDispatch

  /** `overwriteChanger` / `tentativeChanger` over `baseChanger`. */
  class Changer {
    const root: string
    const overwrite: bool
    const fS: ExistsInFS
    var actions: map<Mask, ChangeHandler>

    ghost predicate Valid()
      reads this
    {
      actions == Changers(overwrite) && fS.root == root
    }

    constructor (root: string, overwrite: bool, fS: ExistsInFS)
      ensures this.root == root && this.overwrite == overwrite && this.fS == fS
      ensures actions == map[]
    {
      this.root := root;
      this.overwrite := overwrite;
      this.fS := fS;
      actions := map[];
    }

    /** `create`: install the policy's table. */
    method Create()
      modifies this
      ensures actions == Changers(overwrite)
    {
      if overwrite {
        actions := OverwriteChangers;
      } else {
        actions := TentativeChangers;
      }
    }

    method Rename(from: string, to: string) returns (err: Option<Error>)
      modifies fS.disk
      ensures Carried(fS.disk, RenamePlan(root, from, to), err)
    {
      var destination := Fill(from, to);
      if from == destination {
        return None;
      }
      err := fS.disk.Rename(GoPath.Join([root, from]), GoPath.Join([root, destination]));
    }

    method RejectFileOverwrite(from: string, to: string) returns (err: Option<Error>)
      ensures err == Some(InvalidBinaryFsOp(ChangeOpName, from, to))
    {
      err := Some(NewInvalidBinaryFsOpError(ChangeOpName, from, to));
    }

    /** `change`: guard, then the mask selects at most one handler whose error is
        returned as it is; the storage changes by at most one rename. */
    method Change(from: string, to: string) returns (err: Option<Error>)
      requires Valid()
      modifies fS.disk
      ensures Carried(fS.disk, ChangePlan(overwrite, root, old(fS.disk.items), from, to), err)
    {
      err := Guard(from, to);
      if err.Some? {
        return;
      }
      var mask := Query(fS.root, fS.disk.items, from, Fill(from, to));
      if mask !in actions {
        return Some(NewInvalidBinaryFsOpError(MoveDispatch.MoveOpName, from, to));
      }
      match actions[mask]
      case RenameItem => err := Rename(from, to);
      case RejectFileOverwrite => err := RejectFileOverwrite(from, to);
    }
  }

  /** `lazyChanger`: the changer is built on the first request and kept. */
  class LazyChanger {
    var changer: Changer?

    ghost predicate Valid()
      reads this, changer
    {
      changer != null ==> changer.Valid()
    }

    constructor ()
      ensures changer == null
    {
      changer := null;
    }

    /** `instance`: the first call builds the changer for its arguments; every
        later call returns that same changer, whatever it is passed. */
    method Instance(root: string, overwrite: bool, fS: ExistsInFS) returns (c: Changer)
      requires Valid() && fS.root == root
      modifies this
      ensures changer == c && Valid()
      ensures old(changer) != null ==> c == old(changer)
      ensures old(changer) == null ==> fresh(c) && c.root == root && c.overwrite == overwrite && c.fS == fS
    {
      if changer == null {
        var created := new Changer(root, overwrite, fS);
        created.Create();
        changer := created;
      }
      c := changer;
    }
  }
}

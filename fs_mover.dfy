/** fs-mover.go, fs-mover-overwrite.go and fs-mover-tentative.go as objects: a
    mover whose `create` fills its `actions` table, handlers that each make at most
    one rename, and the lazily built mover of a file system. Every method is
    proved to carry out the plan module MoveDispatch assigns it. */
module FsMover {
  import opened Wrappers
  import opened Errors
  import opened OsDisk
  import opened ExistsInFs
  import opened BaseOp
  import opened MoveDispatch
  import GoPath

  /** `noOp` */
  method NoOpHandler(from: string, to: string) returns (err: Option<Error>)
    ensures err == None
  {
    err := None;
  }

  /** `overwriteMover` / `tentativeMover` over `baseMover`. */
  class Mover {
    const root: string
    const overwrite: bool
    const fS: ExistsInFS
    var actions: map<Mask, MoveHandler>

    /** Created by the policy's `create` and probing the same root it renames under. */
    ghost predicate Valid()
      reads this
    {
      actions == Movers(overwrite) && fS.root == root
    }

    constructor (root: string, overwrite: bool, fS: ExistsInFS)
      ensures this.root == root && this.overwrite == overwrite && this.fS == fS
      ensures actions == map[]
    {
      this.root := root;
      this.overwrite := overwrite;
      this.fS := fS;
      actions := map[];
    }

    /** `create`: install the policy's table. */
    method Create()
      modifies this
      ensures actions == Movers(overwrite)
    {
      if overwrite {
        actions := OverwriteMovers;
      } else {
        actions := TentativeMovers;
      }
    }

    method MoveItemWithName(from: string, to: string) returns (err: Option<Error>)
      modifies fS.disk
      ensures Carried(fS.disk, MoveItemWithNamePlan(root, from, to), err)
    {
      if GoPath.Dir(from) == GoPath.Dir(to) {
        err := Some(NewRejectSameDirMoveError(MoveOpName, from, to));
        return;
      }
      err := fS.disk.Rename(GoPath.Join([root, from]), GoPath.Join([root, to]));
    }

    method MoveDirectoryWithName(from: string, to: string) returns (err: Option<Error>)
      modifies fS.disk
      ensures Carried(fS.disk, MoveDirectoryWithNamePlan(root, from, to), err)
    {
      if GoPath.Dir(from) == GoPath.Dir(to) {
        err := Some(NewRejectSameDirMoveError(MoveOpName, from, to));
        return;
      }
      err := MoveItemWithName(from, to);
    }

    method MoveItemWithoutName(from: string, to: string) returns (err: Option<Error>)
      modifies fS.disk
      ensures Carried(fS.disk, MoveItemWithoutNamePlan(root, from, to), err)
    {
      err := fS.disk.Rename(GoPath.Join([root, from]), GoPath.Join([root, to, GoPath.Base(from)]));
    }

    /** The tentative `moveItemWithoutName`. */
    method TentativeMoveItemWithoutName(from: string, to: string) returns (err: Option<Error>)
      requires fS.root == root
      modifies fS.disk
      ensures Carried(fS.disk, TentativeMoveItemWithoutNamePlan(root, old(fS.disk.items), from, to), err)
    {
      var _, statErr := fS.Stat(GoPath.Join([to, GoPath.Base(from)]));
      if statErr.None? {
        err := Some(NewInvalidBinaryFsOpError(MoveOpName, from, to));
        return;
      }
      err := MoveItemWithoutName(from, to);
    }

    method MoveItemWithoutNameClash(from: string, to: string) returns (err: Option<Error>)
      modifies fS.disk
      ensures Carried(fS.disk, MoveItemWithoutNameClashPlan(root, from, to), err)
    {
      if GoPath.Base(from) == GoPath.Base(to) {
        err := Some(NewRejectSameDirMoveError(MoveOpName, from, to));
        return;
      }
      err := MoveItemWithoutName(from, to);
    }

    method RejectOverwriteOrNoOp(from: string, to: string) returns (err: Option<Error>)
      ensures RejectOverwriteOrNoOpPlan(from, to) == if err.None? then Skip else Reject(err.value)
      ensures err.None? <==> GoPath.Dir(from) == GoPath.Dir(to)
    {
      if GoPath.Dir(from) != GoPath.Dir(to) {
        return Some(NewInvalidBinaryFsOpError(MoveOpName, from, to));
      }
      return None;
    }

    /** `move`: the mask selects at most one handler, whose error is returned as
        it is; the storage changes by at most the one rename of the plan. */
    method Move(from: string, to: string) returns (err: Option<Error>)
      requires Valid()
      modifies fS.disk
      ensures Carried(fS.disk, MovePlan(overwrite, root, old(fS.disk.items), from, to), err)
    {
      var mask := Query(fS.root, fS.disk.items, from, to);
      if mask !in actions {
        return Some(NewInvalidBinaryFsOpError(MoveOpName, from, to));
      }
      match actions[mask]
      case MoveItemWithName => err := MoveItemWithName(from, to);
      case MoveDirectoryWithName => err := MoveDirectoryWithName(from, to);
      case MoveItemWithoutName => err := MoveItemWithoutName(from, to);
      case TentativeMoveItemWithoutName => err := TentativeMoveItemWithoutName(from, to);
      case MoveItemWithoutNameClash => err := MoveItemWithoutNameClash(from, to);
      case NoOp => err := NoOpHandler(from, to);
      case RejectOverwriteOrNoOp => err := RejectOverwriteOrNoOp(from, to);
    }
  }

  /** `lazyMover`: the mover is built on the first request and kept. */
  class LazyMover {
    var mover: Mover?

    ghost predicate Valid()
      reads this, mover
    {
      mover != null ==> mover.Valid()
    }

    constructor ()
      ensures mover == null
    {
      mover := null;
    }

    /** `instance`: the first call builds the mover for its arguments; every later
        call returns that same mover, whatever it is passed. */
    method Instance(root: string, overwrite: bool, fS: ExistsInFS) returns (m: Mover)
      requires Valid() && fS.root == root
      modifies this
      ensures mover == m && Valid()
      ensures old(mover) != null ==> m == old(mover)
      ensures old(mover) == null ==> fresh(m) && m.root == root && m.overwrite == overwrite && m.fS == fS
    {
      if mover == null {
        var created := new Mover(root, overwrite, fS);
        created.Create();
        mover := created;
      }
      m := mover;
    }
  }
}

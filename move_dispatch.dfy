/** What `move` decides (fs-mover.go, fs-mover-overwrite.go, fs-mover-tentative.go):
    the two dispatch tables, the plan of each handler, and the plan of a whole
    move, as functions of the storage before the call. The classes that carry
    these plans out are in module FsMover. */
module MoveDispatch {
  import opened Wrappers
  import opened Errors
  import opened OsDisk
  import opened ExistsInFs
  import opened BaseOp
  import GoPath
  import Strings

  const MoveOpName: string := "Move"

  datatype MoveHandler =
    | MoveItemWithName
    | MoveDirectoryWithName
    | MoveItemWithoutName
    | TentativeMoveItemWithoutName
    | MoveItemWithoutNameClash
    | NoOp
    | RejectOverwriteOrNoOp

  /** `overwriteMover.create`'s table. */
  const OverwriteMovers: map<Mask, MoveHandler> := map[
    Mask(true, false, false, false) := MoveItemWithName,
    Mask(true, false, true, false) := MoveItemWithName,
    Mask(true, true, false, true) := MoveItemWithoutName,
    Mask(true, true, true, true) := MoveItemWithoutNameClash,
    Mask(true, true, false, false) := NoOp
  ]

  /** `tentativeMover.create`'s table. */
  const TentativeMovers: map<Mask, MoveHandler> := map[
    Mask(true, false, false, false) := MoveItemWithName,
    Mask(true, false, true, false) := MoveDirectoryWithName,
    Mask(true, true, false, true) := TentativeMoveItemWithoutName,
    Mask(true, true, true, true) := MoveItemWithoutNameClash,
    Mask(true, true, false, false) := RejectOverwriteOrNoOp
  ]

  function Movers(overwrite: bool): map<Mask, MoveHandler> {
    if overwrite then OverwriteMovers else TentativeMovers
  }

  /** The five masks both tables handle. */
  predicate Handled(m: Mask) {
    m.fromExists && (m.toExists ==> m.toIsDir || !m.fromIsDir) && (!m.toExists ==> !m.toIsDir)
  }

  function MoveItemWithNamePlan(root: string, from: string, to: string): Plan {
    if GoPath.Dir(from) == GoPath.Dir(to) then Reject(NewRejectSameDirMoveError(MoveOpName, from, to))
    else Rename(GoPath.Join([root, from]), GoPath.Join([root, to]))
  }

  function MoveDirectoryWithNamePlan(root: string, from: string, to: string): Plan {
    if GoPath.Dir(from) == GoPath.Dir(to) then Reject(NewRejectSameDirMoveError(MoveOpName, from, to))
    else MoveItemWithNamePlan(root, from, to)
  }

  function MoveItemWithoutNamePlan(root: string, from: string, to: string): Plan {
    Rename(GoPath.Join([root, from]), GoPath.Join([root, to, GoPath.Base(from)]))
  }

  /** The tentative file-into-directory handler stats `to/Base(from)` first. */
  function TentativeMoveItemWithoutNamePlan(root: string, items: Items, from: string, to: string): Plan {
    if Exists(root, items, GoPath.Join([to, GoPath.Base(from)])) then
      Reject(NewInvalidBinaryFsOpError(MoveOpName, from, to))
    else MoveItemWithoutNamePlan(root, from, to)
  }

  /** Calls the base (not the tentative) `moveItemWithoutName`. */
  function MoveItemWithoutNameClashPlan(root: string, from: string, to: string): Plan {
    if GoPath.Base(from) == GoPath.Base(to) then Reject(NewRejectSameDirMoveError(MoveOpName, from, to))
    else MoveItemWithoutNamePlan(root, from, to)
  }

  function RejectOverwriteOrNoOpPlan(from: string, to: string): Plan {
    if GoPath.Dir(from) != GoPath.Dir(to) then Reject(NewInvalidBinaryFsOpError(MoveOpName, from, to))
    else Skip
  }

  function HandlerPlan(h: MoveHandler, root: string, items: Items, from: string, to: string): Plan {
    match h
    case MoveItemWithName => MoveItemWithNamePlan(root, from, to)
    case MoveDirectoryWithName => MoveDirectoryWithNamePlan(root, from, to)
    case MoveItemWithoutName => MoveItemWithoutNamePlan(root, from, to)
    case TentativeMoveItemWithoutName => TentativeMoveItemWithoutNamePlan(root, items, from, to)
    case MoveItemWithoutNameClash => MoveItemWithoutNameClashPlan(root, from, to)
    case NoOp => Skip
    case RejectOverwriteOrNoOp => RejectOverwriteOrNoOpPlan(from, to)
  }

  /** Every handler that renames starts from `root/from`. */
  lemma HandlerRenamesFrom(h: MoveHandler, root: string, items: Items, from: string, to: string)
    ensures var p := HandlerPlan(h, root, items, from, to);
            p.Rename? ==> p.source == GoPath.Join([root, from])
  {
  }

  /** `baseMover.move`: probe, look the mask up, run the handler or fail. A
      rename, when there is one, always starts from `root/from`, which exists. */
  function MovePlan(overwrite: bool, root: string, items: Items, from: string, to: string): (p: Plan)
    ensures !Exists(root, items, from) ==> p == Reject(InvalidBinaryFsOp(MoveOpName, from, to))
    ensures p.Rename? ==> p.source == GoPath.Join([root, from]) && Exists(root, items, from)
    ensures !Handled(Query(root, items, from, to)) ==> p == Reject(InvalidBinaryFsOp(MoveOpName, from, to))
  {
    var mask := Query(root, items, from, to);
    var table := Movers(overwrite);
    ExistsExclusive(root, items, from);
    MoveTablesShape(mask);
    if mask in table then
      HandlerRenamesFrom(table[mask], root, items, from, to);
      HandlerPlan(table[mask], root, items, from, to)
    else Reject(NewInvalidBinaryFsOpError(MoveOpName, from, to))
  }

  /** Both tables have exactly the five handled masks as keys, every one with an
      existing source, and they agree on a file source whose destination is missing. */
  lemma MoveTablesShape(m: Mask)
    ensures m in OverwriteMovers <==> Handled(m)
    ensures m in TentativeMovers <==> Handled(m)
    ensures m in OverwriteMovers ==> m.fromExists
    ensures m == Mask(true, false, false, false) ==> OverwriteMovers[m] == TentativeMovers[m] == MoveItemWithName
  {
  }

  /** A file or a directory moved to a missing destination in the same directory is
      a disguised rename and is rejected; otherwise `root/from` is renamed to
      `root/to`. The two policies agree. */
  lemma MoveToMissingDestination(overwrite: bool, root: string, items: Items, from: string, to: string)
    requires Exists(root, items, from) && !Exists(root, items, to)
    ensures var p := MovePlan(overwrite, root, items, from, to);
            if GoPath.Dir(from) == GoPath.Dir(to) then p == Reject(RejectSameDirMove(MoveOpName, from, to))
            else p == Rename(GoPath.Join([root, from]), GoPath.Join([root, to]))
  {
    ExistsExclusive(root, items, from);
    var mask := Query(root, items, from, to);
    if DirectoryExists(root, items, from) {
      assert mask == Mask(true, false, true, false);
      assert Movers(overwrite)[mask] == if overwrite then MoveItemWithName else MoveDirectoryWithName;
    } else {
      assert mask == Mask(true, false, false, false);
      assert Movers(overwrite)[mask] == MoveItemWithName;
    }
  }

  /** A file moved onto an existing directory goes inside it under its own name.
      The overwrite policy does so unconditionally; the tentative policy first
      rejects when that name is already taken. */
  lemma MoveFileIntoDirectory(overwrite: bool, root: string, items: Items, from: string, to: string)
    requires FileExists(root, items, from) && DirectoryExists(root, items, to)
    ensures var p := MovePlan(overwrite, root, items, from, to);
            var into := Rename(GoPath.Join([root, from]), GoPath.Join([root, to, GoPath.Base(from)]));
            if !overwrite && Exists(root, items, GoPath.Join([to, GoPath.Base(from)])) then
              p == Reject(InvalidBinaryFsOp(MoveOpName, from, to))
            else p == into
  {
    ExistsExclusive(root, items, from);
    ExistsExclusive(root, items, to);
    var mask := Query(root, items, from, to);
    assert mask == Mask(true, true, false, true);
    if overwrite {
      assert OverwriteMovers[mask] == MoveItemWithoutName;
      assert MovePlan(overwrite, root, items, from, to) == MoveItemWithoutNamePlan(root, from, to);
    } else {
      assert TentativeMovers[mask] == TentativeMoveItemWithoutName;
      assert MovePlan(overwrite, root, items, from, to) == TentativeMoveItemWithoutNamePlan(root, items, from, to);
    }
  }

  /** A directory moved onto an existing directory goes inside it, unless the two
      share a base name (which includes moving a directory onto itself); under
      either policy. */
  lemma MoveDirectoryIntoDirectory(overwrite: bool, root: string, items: Items, from: string, to: string)
    requires DirectoryExists(root, items, from) && DirectoryExists(root, items, to)
    ensures var p := MovePlan(overwrite, root, items, from, to);
            if GoPath.Base(from) == GoPath.Base(to) then p == Reject(RejectSameDirMove(MoveOpName, from, to))
            else p == Rename(GoPath.Join([root, from]), GoPath.Join([root, to, GoPath.Base(from)]))
  {
    var mask := Query(root, items, from, to);
    assert mask == Mask(true, true, true, true);
    assert Movers(overwrite)[mask] == MoveItemWithoutNameClash;
    assert MovePlan(overwrite, root, items, from, to) == MoveItemWithoutNameClashPlan(root, from, to);
  }

  /** Two existing files: the overwrite policy does nothing at all; the tentative
      policy rejects when their directories differ and otherwise also does nothing,
      even for two different files of one directory. */
  lemma MoveFileOntoFile(overwrite: bool, root: string, items: Items, from: string, to: string)
    requires FileExists(root, items, from) && FileExists(root, items, to)
    ensures var p := MovePlan(overwrite, root, items, from, to);
            if !overwrite && GoPath.Dir(from) != GoPath.Dir(to) then
              p == Reject(InvalidBinaryFsOp(MoveOpName, from, to))
            else p == Skip
  {
  }

  /** A directory onto an existing file has no table entry. */
  lemma MoveDirectoryOntoFile(overwrite: bool, root: string, items: Items, from: string, to: string)
    requires DirectoryExists(root, items, from) && FileExists(root, items, to)
    ensures MovePlan(overwrite, root, items, from, to) == Reject(InvalidBinaryFsOp(MoveOpName, from, to))
  {
    ExistsExclusive(root, items, to);
  }

  /** Moving an item onto itself: a file succeeds doing nothing, a directory is
      rejected as a same-directory move. */
  lemma MoveOntoItself(overwrite: bool, root: string, items: Items, path: string)
    ensures FileExists(root, items, path) ==> MovePlan(overwrite, root, items, path, path) == Skip
    ensures DirectoryExists(root, items, path) ==>
              MovePlan(overwrite, root, items, path, path) == Reject(RejectSameDirMove(MoveOpName, path, path))
  {
    if FileExists(root, items, path) {
      MoveFileOntoFile(overwrite, root, items, path, path);
    }
    if DirectoryExists(root, items, path) {
      MoveDirectoryIntoDirectory(overwrite, root, items, path, path);
    }
  }

  /** The two policies decide differently only when the destination exists and the
      source is a file. */
  lemma PoliciesDiffer(root: string, items: Items, from: string, to: string)
    requires MovePlan(true, root, items, from, to) != MovePlan(false, root, items, from, to)
    ensures FileExists(root, items, from) && Exists(root, items, to)
  {
    ExistsExclusive(root, items, from);
    ExistsExclusive(root, items, to);
  }

  /** Carried out, a move of an existing file to a missing name in another
      directory succeeds exactly when the new name's parent is a directory; it
      then leaves the file at its new name and nothing at its old one, and
      otherwise changes nothing. */
  lemma MoveRenamesFile(overwrite: bool, root: string, items: Items, from: string, to: string)
    requires root != ""
    requires FileExists(root, items, from) && !Exists(root, items, to)
    requires GoPath.Dir(from) != GoPath.Dir(to)
    ensures var o := Apply(MovePlan(overwrite, root, items, from, to), items);
            (o.err == None <==> ParentIsDir(items, StatPath(root, to))) &&
            (o.err == None ==>
               FileExists(root, o.items, to) && !Exists(root, o.items, from) &&
               Lookup(o.items, StatPath(root, to)) == Lookup(items, StatPath(root, from))) &&
            (o.err != None ==> o.items == items)
  {
    var src, dst := GoPath.Join([root, from]), GoPath.Join([root, to]);
    MoveToMissingDestination(overwrite, root, items, from, to);
    JoinResolves(root, from);
    JoinResolves(root, to);
    JoinIsClean([root, from]);
    JoinIsClean([root, to]);
    var o := RenameOutcome(items, src, dst);
    assert Apply(MovePlan(overwrite, root, items, from, to), items) == o;
    OsDisk.RenameFileToFreeName(items, src, dst);
    assert Lookup(o.items, dst) == Lookup(o.items, StatPath(root, to));
    assert Lookup(o.items, src) == Lookup(o.items, StatPath(root, from));
  }

  /** A directory moved into a directory that already holds a directory of its
      name fails, under either policy, with the `ErrExist` of `os.Rename` and
      changes nothing. */
  lemma MoveDirectoryClashRefused(overwrite: bool, root: string, items: Items, from: string, to: string)
    requires root != ""
    requires DirectoryExists(root, items, from) && DirectoryExists(root, items, to)
    requires GoPath.Base(from) != GoPath.Base(to)
    requires DirAt(items, GoPath.Join([root, to, GoPath.Base(from)]))
    ensures Apply(MovePlan(overwrite, root, items, from, to), items)
            == Outcome(Some(PathError("rename", GoPath.Join([root, from]), Exist)), items)
  {
    var src, dst := GoPath.Join([root, from]), GoPath.Join([root, to, GoPath.Base(from)]);
    MoveDirectoryIntoDirectory(overwrite, root, items, from, to);
    assert MovePlan(overwrite, root, items, from, to) == Rename(src, dst);
    JoinResolves(root, from);
    JoinIsClean([root, from]);
    JoinIsClean([root, to, GoPath.Base(from)]);
    assert src != "" && dst != "";
    assert Key(src) in items;
    OsDisk.RenameOntoDirectoryRefused(items, src, dst);
  }

  /** A join that starts with a non-empty element is already clean. */
  lemma JoinIsClean(elems: seq<string>)
    requires |elems| > 0 && elems[0] != ""
    ensures Key(GoPath.Join(elems)) == GoPath.Join(elems)
  {
    GoPath.CleanIdempotent(Strings.JoinWith(elems, [GoPath.Separator]));
  }

  /** `filepath.Join(root, name)` names the entry `os.Stat` finds for `name`. */
  lemma JoinResolves(root: string, name: string)
    requires root != ""
    ensures Key(GoPath.Join([root, name])) == Key(StatPath(root, name))
  {
    GoPath.JoinTwo(root, name);
    assert StatPath(root, name) == root + [GoPath.Separator] + name by {
      assert [root, name][1..] == [name];
      assert Strings.JoinWith([name], [GoPath.Separator]) == name;
    }
    GoPath.CleanIdempotent(root + [GoPath.Separator] + name);
  }
}

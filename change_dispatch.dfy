/** What `change` decides (fs-changer.go): rename an item within its own
    directory, given only the new name. The guard, the destination `fill`, the two
    tables and the plan of a whole change, as functions of the storage before the
    call. The classes that carry these plans out are in module FsChanger. */
module ChangeDispatch {
  import opened Wrappers
  import opened Errors
  import opened OsDisk
  import opened ExistsInFs
  import opened BaseOp
  import GoPath
  import Strings
  import FsUtils
  import MoveDispatch

  const ChangeOpName: string := "Change"

  datatype ChangeHandler = RenameItem | RejectFileOverwrite

  /** `overwriteChanger.create`'s table. */
  const OverwriteChangers: map<Mask, ChangeHandler> := map[
    Mask(true, false, false, false) := RenameItem,
    Mask(true, false, true, false) := RenameItem,
    Mask(true, true, true, true) := RenameItem,
    Mask(true, true, false, false) := RenameItem
  ]

  /** `tentativeChanger.create`'s table. */
  const TentativeChangers: map<Mask, ChangeHandler> := map[
    Mask(true, false, false, false) := RenameItem,
    Mask(true, false, true, false) := RenameItem,
    Mask(true, true, true, true) := RenameItem,
    Mask(true, true, false, false) := RejectFileOverwrite
  ]

  function Changers(overwrite: bool): map<Mask, ChangeHandler> {
    if overwrite then OverwriteChangers else TentativeChangers
  }

  /** `guard`: the new name may not hold a separator. */
  function Guard(from: string, to: string): (r: Option<Error>)
    ensures r.None? <==> FsUtils.Delimiter !in to
    ensures r.Some? ==> IsInvalidPathError(r)
  {
    if FsUtils.Delimiter in to then Some(NewInvalidPathError(to)) else None
  }

  /** `fill`: the new name in the directory of `from`. When `from` has no
      separator the parent is "" and the result starts with one. */
  function Fill(from: string, to: string): (r: string)
    ensures FsUtils.Delimiter in from ==>
              var cut := |FsUtils.Parent(from)| + 1;
              cut <= |from| && r == from[..cut] + to
    ensures FsUtils.Delimiter !in from ==> r == [FsUtils.Delimiter] + to
  {
    FsUtils.Join([FsUtils.Parent(from), to])
  }

  /** `rename`: nothing when the destination is literally `from`, else one rename. */
  function RenamePlan(root: string, from: string, to: string): Plan {
    var destination := Fill(from, to);
    if from == destination then Skip
    else Rename(GoPath.Join([root, from]), GoPath.Join([root, destination]))
  }

  function HandlerPlan(h: ChangeHandler, root: string, from: string, to: string): Plan {
    match h
    case RenameItem => RenamePlan(root, from, to)
    case RejectFileOverwrite => Reject(NewInvalidBinaryFsOpError(ChangeOpName, from, to))
  }

  /** `baseChanger.change`: guard, probe `from` and the filled destination, look
      the mask up, run the handler or fail with an error labelled "Move". */
  function ChangePlan(overwrite: bool, root: string, items: Items, from: string, to: string): (p: Plan)
    ensures FsUtils.Delimiter in to ==> p == Reject(InvalidPath(to))
    ensures FsUtils.Delimiter !in to && !Exists(root, items, from) ==>
              p == Reject(InvalidBinaryFsOp(MoveDispatch.MoveOpName, from, to))
    ensures p.Rename? ==> p == Rename(GoPath.Join([root, from]), GoPath.Join([root, Fill(from, to)]))
                          && Exists(root, items, from)
  {
    var guarded := Guard(from, to);
    if guarded.Some? then Reject(guarded.value)
    else
      var mask := Query(root, items, from, Fill(from, to));
      var table := Changers(overwrite);
      ExistsExclusive(root, items, from);
      if mask in table then HandlerPlan(table[mask], root, from, to)
      else Reject(NewInvalidBinaryFsOpError(MoveDispatch.MoveOpName, from, to))
  }

  /** The tables share their four keys, all with an existing source, and differ
      only on a file whose destination exists as a file. A file onto a directory
      and a directory onto a file are in neither. */
  lemma ChangeTablesShape(m: Mask)
    ensures m in OverwriteChangers <==> m in TentativeChangers
    ensures m in OverwriteChangers ==> m.fromExists && (m.fromIsDir || !m.toIsDir) && (m.toExists ==> m.fromIsDir == m.toIsDir)
    ensures m in OverwriteChangers && OverwriteChangers[m] != TentativeChangers[m] ==> m == Mask(true, true, false, false)
    ensures TentativeChangers[Mask(true, true, false, false)] == RejectFileOverwrite
  {
  }

  /** Changing a name to one that holds a separator fails before anything is probed. */
  lemma ChangeRejectsSeparator(overwrite: bool, root: string, items: Items, from: string, to: string)
    requires FsUtils.Delimiter in to
    ensures IsInvalidPathError(Apply(ChangePlan(overwrite, root, items, from, to), items).err)
    ensures Apply(ChangePlan(overwrite, root, items, from, to), items).items == items
  {
  }

  /** An existing file changed to the name of another existing file: the overwrite
      policy renames over it, the tentative policy rejects with the "Change" label
      even when the name is its own. */
  lemma ChangeFileOntoFile(overwrite: bool, root: string, items: Items, from: string, to: string)
    requires FsUtils.Delimiter !in to
    requires FileExists(root, items, from) && FileExists(root, items, Fill(from, to))
    ensures var p := ChangePlan(overwrite, root, items, from, to);
            if overwrite then p == RenamePlan(root, from, to)
            else p == Reject(InvalidBinaryFsOp(ChangeOpName, from, to))
  {
    ExistsExclusive(root, items, from);
    ExistsExclusive(root, items, Fill(from, to));
    var mask := Query(root, items, from, Fill(from, to));
    assert mask == Mask(true, true, false, false);
  }

  /** Giving a nested item its own name: a directory succeeds without renaming
      under either policy; a file does so under overwrite and is rejected under
      tentative. */
  lemma ChangeToOwnName(overwrite: bool, root: string, items: Items, from: string)
    requires FsUtils.Delimiter in from
    requires Exists(root, items, from)
    ensures var name := from[|FsUtils.Parent(from)| + 1..];
            var p := ChangePlan(overwrite, root, items, from, name);
            Fill(from, name) == from &&
            (DirectoryExists(root, items, from) || overwrite ==> p == Skip) &&
            (FileExists(root, items, from) && !overwrite ==> p == Reject(InvalidBinaryFsOp(ChangeOpName, from, name)))
  {
    var name := from[|FsUtils.Parent(from)| + 1..];
    FsUtils.ParentJoin(from);
    assert Fill(from, name) == from;
    assert FsUtils.Delimiter !in name;
    ExistsExclusive(root, items, from);
    var mask := Query(root, items, from, from);
    if DirectoryExists(root, items, from) {
      assert mask == Mask(true, true, true, true);
    } else {
      assert mask == Mask(true, true, false, false);
    }
  }

  /** Carried out under overwrite, changing a file's name to that of a distinct
      existing file leaves the moved content under the new name and nothing under
      the old one. */
  lemma OverwriteChangeReplaces(root: string, items: Items, from: string, to: string)
    requires root != "" && FsUtils.Delimiter !in to
    requires FileExists(root, items, from) && FileExists(root, items, Fill(from, to))
    requires Key(StatPath(root, from)) != Key(StatPath(root, Fill(from, to)))
    ensures var o := Apply(ChangePlan(true, root, items, from, to), items);
            o.err == None && !Exists(root, o.items, from) &&
            Lookup(o.items, StatPath(root, Fill(from, to))) == Lookup(items, StatPath(root, from))
  {
    ChangeFileOntoFile(true, root, items, from, to);
    MoveDispatch.JoinResolves(root, from);
    MoveDispatch.JoinResolves(root, Fill(from, to));
  }

  /** A top-level file changed to its own name: the destination is "/" + name, so
      the literal comparison in `rename` never matches. Under overwrite the rename
      is issued with source and destination naming the same entry, which then
      changes nothing; under tentative the clash is rejected. */
  lemma TopLevelChangeToOwnName(root: string, items: Items, name: string)
    requires root != "" && FsUtils.Delimiter !in name
    requires FileExists(root, items, name)
    ensures Fill(name, name) != name
    ensures var p := ChangePlan(true, root, items, name, name);
            p == Rename(GoPath.Join([root, name]), GoPath.Join([root, [FsUtils.Delimiter] + name])) &&
            Key(p.source) == Key(p.destination) &&
            Apply(p, items) == Outcome(None, items)
    ensures ChangePlan(false, root, items, name, name) == Reject(InvalidBinaryFsOp(ChangeOpName, name, name))
  {
    var slashed := [FsUtils.Delimiter] + name;
    assert Fill(name, name) == slashed;
    SamePlace(root, name);
    assert FileExists(root, items, slashed);
    ChangeFileOntoFile(true, root, items, name, name);
    ChangeFileOntoFile(false, root, items, name, name);
    TopLevelSameJoin(root, name);
    MoveDispatch.JoinResolves(root, name);
    MoveDispatch.JoinIsClean([root, name]);
  }

  /** A top-level directory changed to its own name fails under either policy:
      the rename is issued onto the existing directory under the very same path,
      which Unix `os.Rename` refuses with `ErrExist`. Nothing changes. */
  lemma TopLevelDirectoryChangeToOwnName(overwrite: bool, root: string, items: Items, name: string)
    requires root != "" && FsUtils.Delimiter !in name
    requires DirectoryExists(root, items, name)
    ensures var p := ChangePlan(overwrite, root, items, name, name);
            p == Rename(GoPath.Join([root, name]), GoPath.Join([root, [FsUtils.Delimiter] + name])) &&
            Apply(p, items) == Outcome(Some(PathError("rename", GoPath.Join([root, name]), Exist)), items)
  {
    var slashed := [FsUtils.Delimiter] + name;
    assert Fill(name, name) == slashed;
    SamePlace(root, name);
    assert DirectoryExists(root, items, slashed);
    ExistsExclusive(root, items, name);
    ExistsExclusive(root, items, slashed);
    var mask := Query(root, items, name, slashed);
    assert mask == Mask(true, true, true, true);
    assert Changers(overwrite)[mask] == RenameItem;
    TopLevelSameJoin(root, name);
    var src := GoPath.Join([root, name]);
    MoveDispatch.JoinResolves(root, name);
    MoveDispatch.JoinIsClean([root, name]);
    assert src != "";
  }

  /** `filepath.Join` gives one and the same path for a name and for "/" + name. */
  lemma TopLevelSameJoin(root: string, name: string)
    requires root != ""
    ensures GoPath.Join([root, name]) == GoPath.Join([root, [FsUtils.Delimiter] + name])
  {
    var slashed := [FsUtils.Delimiter] + name;
    GoPath.JoinTwo(root, name);
    GoPath.JoinTwo(root, slashed);
    assert root + [GoPath.Separator] + slashed == root + [GoPath.Separator] + [GoPath.Separator] + name;
    GoPath.CleanDoubleSeparator(root, name);
  }

  /** A name and the same name behind a leading separator are stat'ed at one entry. */
  lemma SamePlace(root: string, name: string)
    requires root != ""
    ensures Key(StatPath(root, [FsUtils.Delimiter] + name)) == Key(StatPath(root, name))
  {
    var slashed := [FsUtils.Delimiter] + name;
    assert [root, name][1..] == [name] && [root, slashed][1..] == [slashed];
    assert Strings.JoinWith([name], [GoPath.Separator]) == name;
    assert Strings.JoinWith([slashed], [GoPath.Separator]) == slashed;
    assert StatPath(root, name) == root + [GoPath.Separator] + name;
    assert StatPath(root, slashed) == root + [GoPath.Separator] + [GoPath.Separator] + name;
    GoPath.CleanDoubleSeparator(root, name);
  }
}

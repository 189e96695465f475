# nefilim in Dafny

nefilim is a Go library of file systems that share one interface. A *relative*
file system is rooted at a fixed directory and accepts only root-relative names
that satisfy `io/fs.ValidPath`. An *absolute* file system works on native paths.
Several map-backed in-memory file systems are used by tests. On top of the
storage calls sit two higher-level operations:

- `Move(from, to)` moves an item to another directory, optionally under a new name;
- `Change(from, to)` renames an item within its own directory.

Each of them probes the source and the destination, turns the answers into a
four-flag mask, and looks that mask up in a table chosen by the file system's
*overwrite* policy. The entry found is a handler that rejects, does nothing, or
makes exactly one `os.Rename`.

This project models that core and proves what it does:

- **Path calculus** (`strings.dfy`, `gopath.dfy`, `path_calc.dfy`, `fs_utils.dfy`):
  - `RelativeCalc`, `AbsoluteCalc.Truncate/Elements`, `Parent` and `Join`, with their round trips and edge cases.
  - The Go library functions they rest on are modelled too: `strings.Split/Join/LastIndex`, and `filepath.Clean/Base/Dir/Split/Join` on a '/' platform. `Clean` is proved idempotent.
- **Errors** (`errors.dfy`): the three core error kinds, the library sentinels, and the `errors.Is` classifiers.
- **Storage** (`os_disk.dfy`): the native storage as a map from cleaned path to entry. A ghost log records every rename call.
- **Dispatch** (`base_op.dfy`, `move_dispatch.dfy`, `change_dispatch.dfy`):
  - the existence probe `peek` and the mask;
  - the four dispatch tables;
  - every handler, and a whole `move` or `change`, as a *plan* (reject, skip, or one rename) that is a function of the storage before the call.
- **Movers and changers** (`fs_mover.dfy`, `fs_changer.dfy`): classes whose `create` fills the `actions` table, and whose handlers are proved to carry out their plans. The lazily built mover and changer are modelled as well.
- **File systems**:
  - the relative file system (`fs_relative.dfy`) and the absolute one (`fs_absolute.dfy`);
  - the three map-backed test file systems (`map_fs.dfy`, `luna_mem_fs.dfy`, `test_luna_fs_mem.dfy`, `traverse_fs.dfy`), including `FileAdapter`, a byte buffer with a cursor.
- **Helpers**: `Separate` (`separate.dfy`), `EnsurePathAt` (`ensure_path_at.dfy`) and `ResolvePath` (`resolve_path.dfy`).

The following behaviours are stated as lemmas rather than filed as defects:

- **Changing a top-level item to its own name:** the computed destination is `"/" + name`, so the comparison in `rename` never matches.
  - A top-level file under overwrite is renamed onto itself, which changes nothing. Under tentative it is rejected (`ChangeDispatch.TopLevelChangeToOwnName`).
  - A top-level directory fails under either policy with `ErrExist`. The rename names the existing directory as its destination by the very same path, which `os.Rename` refuses (`ChangeDispatch.TopLevelDirectoryChangeToOwnName`). A nested directory given its own name, by contrast, succeeds without any rename (`ChangeDispatch.ChangeToOwnName`).
- **`EnsurePathAt` on the relative file system:** every directory that does not yet exist is refused with an invalid-path error. The directory part of a path is either "" or ends in '/', and neither is a valid name (`EnsurePathAt.RelativeDirectoryRefused`).
- **Prefix matching in the in-memory `RemoveAll`:** it matches keys on a raw string prefix, so removing `a` also removes `ab` (`MapFs.RemoveAllSibling`).
- **Implicit parent directories in the in-memory `Create` and `WriteFile`:** both refuse an implicit parent directory that their own `DirectoryExists` does not report (`MapFs.ImplicitDirectory`).

Where comments or documentation and the code disagree, the model follows the code:

- **`Move` of an item onto itself:** succeeds for a file. For a directory it is rejected as a same-directory move.
- **Tentative `rejectOverwriteOrNoOp`:** compares only the two directories. Two different files in one directory are left as they are, without error.
- **Tentative `Change`:** rejects every file clash, including a file given its own name.
- **Unmatched `Change` masks:** the error is labelled with the operation name "Move".
- **`AbsoluteCalc.Join` of no elements:** gives "", not ".".
- **Tentative `Move` onto a taken name:** the comment on `aggregatorFS.Move` (fs-relative.go:437-438) promises `os.ErrExist`. The code returns an invalid-binary-fs-op error (`MoveDispatch.MoveFileIntoDirectory`).
- **`absoluteFS.Ensure` of a missing file:** the comment (fs-absolute.go:124) says the default is returned. The code returns the cleaned join of the directory and the file (fs-absolute.go:140), and the model does the same (`FsAbsolute.EnsureNewFile`).
- **Overwrite `Move` of a file onto an existing file:** the same comment says the destination is overwritten. The overwrite table maps that mask to `noOp` (fs-mover-overwrite.go:13), so nothing changes (`MoveDispatch.MoveFileOntoFile`).

## Model

| member | source | states |
|---|---|---|
| `Strings.LastIndexOf` | path-calc.go:94 | `strings.LastIndex`: -1 exactly when the character is absent; otherwise an index holding it with no occurrence after it |
| `Strings.SplitOn` | path-calc.go:118 | `strings.Split`: at least one piece, and no piece holds the separator |
| `Strings.JoinWithEnds` | path-calc.go:136 | `strings.Join`: "" for no elements; otherwise the join starts with the first element and ends with the last |
| `Strings.JoinSplit` | path-calc.go:118-136 | joining the pieces of a split with the separator gives the string back |
| `Strings.SplitJoin` | path-calc.go:118-136 | splitting a join of separator-free pieces gives the pieces back |
| `GoPath.Clean` | path-calc.go:29-31 | the cleaned path is never empty, is "." for "", keeps a leading separator, and never starts with two separators |
| `GoPath.CleanIdempotent` | path-calc.go:29-31 | cleaning a cleaned path changes nothing |
| `GoPath.CleanDoubleSeparator` | path-calc.go:29-31 | a doubled separator anywhere cleans exactly like a single one |
| `GoPath.Base` | path-calc.go:23-25 | the base is never empty, and is "/" or free of separators |
| `GoPath.Dir` | path-calc.go:34-36 | the directory part is never empty ("." when nothing is left) |
| `GoPath.Split` | path-calc.go:44-46 | directory and file concatenate to the path; the file has no separator; the directory is empty or ends in one |
| `GoPath.Join` | path-calc.go:39-41 | joining only empty elements (or none) gives "" |
| `GoPath.JoinTwo` | path-calc.go:39-41 | joining onto a non-empty head is cleaning `head + "/" + tail` |
| `GoPath.JoinThree` | fs-mover.go:94-102 | the three-element join used for `root/to/Base(from)` is the cleaned '/'-joined text |
| `GoPath.CleanJoinOfSplit` | ensure-path-at.go:36-47 | cleaning the join of what `Split` separates gives back the cleaned path |
| `GoPath.ValidPath` | fs-relative.go:238-241 | `io/fs.ValidPath`: a valid name is never empty |
| `GoPath.EmptyInvalid` | fs-relative.go:283-287 | "" is not a valid name |
| `GoPath.TrailingInvalid` | fs-relative.go:258-261 | a name ending in '/' is not valid |
| `GoPath.LeadingInvalid` | fs-relative.go:238-241 | a name starting with '/' is not valid |
| `GoPath.DotLastInvalid` | fs-relative.go:318-333 | a name whose last element is "." is not valid |
| `GoPath.ValidPathEnds` | fs-relative.go:238-241 | a valid name is non-empty and neither starts nor ends with '/' |
| `RelativeCalc.Base` | path-calc.go:85-95 | "." for ""; the path itself without '/'; otherwise the '/'-free text after the last '/' |
| `RelativeCalc.Clean` | path-calc.go:99-111 | never empty and never rooted; "." for "/"; otherwise `filepath.Clean` with at most its one leading '/' dropped |
| `RelativeCalc.CleanShape` | path-calc.go:99-111 | `filepath.Clean` gives at most one leading separator and keeps "/" as "/" |
| `RelativeCalc.Elements` | path-calc.go:113-119 | no elements exactly for ""; no element holds '/' |
| `RelativeCalc.Dir` | path-calc.go:122-132 | "." for "" or a path without '/'; otherwise the strict prefix before the last '/' |
| `RelativeCalc.Join` | path-calc.go:135-137 | "" for no elements; otherwise starts with the first element |
| `RelativeCalc.Split` | path-calc.go:140-150 | ("","") for "", ("",p) without '/', otherwise (Dir, Base), which rejoined with '/' give p |
| `RelativeCalc.Truncate` | path-calc.go:152-162 | "." for ""; unchanged without a trailing '/'; otherwise exactly one trailing '/' removed |
| `RelativeCalc.JoinElements` | path-calc.go:113-137 | joining the elements of any path gives the path back |
| `RelativeCalc.ElementsJoin` | path-calc.go:113-137 | splitting a join of '/'-free elements (other than [""]) gives the elements back |
| `RelativeCalc.DirBase` | path-calc.go:140-150 | Dir and Base joined with '/' rebuild any path holding '/' |
| `RelativeCalc.CleanValid` | path-calc.go:99-111 | a valid `io/fs` name is its own clean form under both cleans |
| `AbsoluteCalc.Truncate` | path-calc.go:48-62 | "." for ""; unchanged without a trailing separator; otherwise that separator removed |
| `AbsoluteCalc.Elements` | path-calc.go:64-70 | no elements exactly for ""; no element holds the separator |
| `AbsoluteCalc.AgreesWithRelative` | path-calc.go:48-70 | on a '/' platform Truncate and Elements agree with the relative calculator |
| `AbsoluteCalc.RootAndEmpty` | path-calc.go:29-41 | absolute Join of nothing is ""; absolute Clean keeps "/" where the relative Clean gives "." |
| `FsUtils.Parent` | fs-utils.go:16-23 | "" without '/'; otherwise the strict prefix before the last '/' |
| `FsUtils.Join` | fs-utils.go:25-31 | "" for no segments; two segments joined by exactly one '/' whatever the platform |
| `FsUtils.JoinEmptyParent` | fs-utils.go:25-31 | an empty parent gives a leading '/' |
| `FsUtils.ParentJoin` | fs-utils.go:16-31 | Parent joined with the text after the last '/' rebuilds the path |
| `FsUtils.ParentVersusDir` | fs-utils.go:16-23 | Parent equals RelativeCalc.Dir except without '/', where they give "" and "." |
| `Errors.IsInvalidPathError` | errors.go:9-11 | an error so classified is not nil and is neither a binary fs op error nor a same-directory rejection |
| `Errors.IsBinaryFsOpError` | errors.go:19-21 | an error so classified is not nil and is neither an invalid path nor a same-directory rejection |
| `Errors.IsRejectSameDirMoveError` | errors.go:29-31 | an error so classified is not nil and is neither an invalid path nor a binary fs op error |
| `Errors.NewInvalidPathError` | errors.go:14-16 | the error is classified as an invalid path and as nothing else |
| `Errors.NewInvalidBinaryFsOpError` | errors.go:24-26 | the error is classified as a binary fs op error and as nothing else |
| `Errors.NewRejectSameDirMoveError` | errors.go:34-36 | the error is classified as a same-directory rejection and as nothing else |
| `Errors.ClassifiersExclusive` | errors.go:9-44 | the sentinels are distinct: no error satisfies two classifiers, nil satisfies none |
| `OsDisk.MkdirAllKeepsFiles` | fs-absolute.go:111-113 | `MkdirAll` never creates or removes a file |
| `OsDisk.Disk.Stat` | fs-absolute.go:83-85 | the entry at the cleaned path, or a not-exist path error |
| `OsDisk.Disk.Mkdir` | fs-absolute.go:100-102 | new storage and error are those of `os.Mkdir`: "" does not exist, an existing entry is ErrExist, a way through a file is ENOTDIR, a missing parent is ErrNotExist, otherwise one directory is added; no rename logged |
| `OsDisk.Disk.MkdirAll` | fs-absolute.go:111-113 | new storage and error are those of `os.MkdirAll`: an existing directory is no change, a file at the path is ENOTDIR on the path, a file on the way is ENOTDIR on the first such file, otherwise the path and every missing ancestor become directories; no rename logged |
| `OsDisk.Disk.WriteFile` | fs-absolute.go:223-225 | new storage and error are those of `os.WriteFile`: a directory is refused, an existing file is replaced, a new file needs a directory for its parent (ENOTDIR through a file, else ErrNotExist); no rename logged |
| `OsDisk.Disk.Remove` | fs-absolute.go:187-189 | new storage and error are those of `os.Remove`: a path through a file is ENOTDIR, a missing entry is ErrNotExist, a path ending in "." is refused, a non-empty directory is refused, otherwise the entry goes; no rename logged |
| `OsDisk.Disk.RemoveAll` | fs-absolute.go:196-198 | new storage and error are those of `os.RemoveAll`: "" is nothing to do, a path ending in "." is EINVAL, a path through a file is ENOTDIR, otherwise the entry and everything below it go; no rename logged |
| `OsDisk.Disk.Rename` | fs-absolute.go:205-207 | new storage and error are those of Unix `os.Rename`: an existing directory destination is ErrExist, an entry onto itself is no change, a directory below itself is EINVAL, a directory onto a file is ENOTDIR, a new name needs a directory parent, a file replaces a file; the call is appended to the rename log |
| `OsDisk.MkdirAllMakesAncestors` | fs-absolute.go:111-113 | a successful `MkdirAll` leaves the path a directory, keeps every entry, adds only the path and its ancestors, and when it creates the path every ancestor is a directory |
| `OsDisk.MkdirNeedsParent` | fs-absolute.go:100-102 | `Mkdir` succeeds exactly for a non-empty missing path whose parent is a directory, adding just that directory; a failure changes nothing |
| `OsDisk.WriteNeedsParent` | fs-absolute.go:223-225 | `WriteFile` succeeds exactly for a non-empty path that is no directory and is a file or has a directory parent, storing exactly the data; a failure changes nothing |
| `OsDisk.RemoveDotRefused` | fs-absolute.go:187-198 | neither `Remove` nor `RemoveAll` removes a path ending in "."; `RemoveAll` reports EINVAL |
| `OsDisk.RemoveAllClears` | fs-absolute.go:196-198 | `RemoveAll` of any other non-empty path succeeds exactly when no ancestor is a file, then leaves nothing at or below it and keeps every other entry; through a file it is ENOTDIR with no change |
| `OsDisk.RenameFileToFreeName` | fs-absolute.go:205-207 | `os.Rename` of a file to a free name succeeds exactly when the new name's parent is a directory; it then moves that one entry and keeps everything else, and otherwise changes nothing |
| `OsDisk.ThroughFileRefused` | fs-absolute.go:111-113 | a path through a file is refused with ENOTDIR and no change by `Remove`, `RemoveAll` and `MkdirAll`, which names the first file on the way |
| `OsDisk.RenameOntoDirectoryRefused` | fs-absolute.go:205-207 | a rename onto an existing directory (other than the source under another spelling) is ErrExist and changes nothing |
| `OsDisk.RenameMoves` | fs-absolute.go:205-207 | a successful rename between two keys moves the source's entry to the destination; a failed one changes nothing |
| `ExistsInFs.ExistsExclusive` | fs-relative.go:143-168 | a name is never both a file and a directory, and exists exactly when it is one of them |
| `ExistsInFs.ExistsInFS.constructor` | fs-relative.go:132-136 | an existence probe over the given root and storage |
| `ExistsInFs.ExistsInFS.Stat` | fs-relative.go:69-71 | stats root joined with the name; succeeds exactly when the name exists, reporting a directory exactly when DirectoryExists holds |
| `BaseOp.Peek` | base-op.go:9-19 | (true,true) for a directory, (true,false) for a file, (false,false) when absent; never a directory that does not exist |
| `BaseOp.Query` | fs-mover.go:56-66 | the mask's fields are exactly the two probes of `from` and `to` |
| `BaseOp.Calls` | fs-mover.go:43-54 | a plan issues at most one rename call, and one exactly when it is a rename |
| `BaseOp.ApplyUnchanged` | fs-mover.go:39-41 | a rejected or skipped plan leaves storage unchanged, and fails exactly when rejected |
| `MoveDispatch.MovePlan` | fs-mover.go:43-54 | a missing source or an unhandled mask gives InvalidBinaryFsOp("Move", from, to); any rename starts at root/from, which exists |
| `MoveDispatch.MoveTablesShape` | fs-mover-overwrite.go:7-17 | both tables have exactly the five handled masks, all with an existing source, and agree on a file to a missing destination |
| `MoveDispatch.MoveToMissingDestination` | fs-mover.go:80-92 | to a missing destination: rejected as same-directory when the Dirs are equal, else one rename root/from to root/to, under both policies |
| `MoveDispatch.MoveFileIntoDirectory` | fs-mover-tentative.go:34-43 | a file onto a directory is renamed into it under its base name; tentative first rejects when that name exists |
| `MoveDispatch.MoveDirectoryIntoDirectory` | fs-mover.go:104-116 | a directory onto a directory goes inside, unless the base names are equal, which is rejected as same-directory |
| `MoveDispatch.MoveFileOntoFile` | fs-mover-tentative.go:45-55 | file onto file: overwrite does nothing; tentative rejects different directories and otherwise does nothing |
| `MoveDispatch.MoveDirectoryOntoFile` | fs-mover.go:43-54 | a directory onto a file has no table entry and fails with InvalidBinaryFsOp |
| `MoveDispatch.HandlerRenamesFrom` | fs-mover.go:80-116 | every handler that renames starts from root/from |
| `MoveDispatch.MoveOntoItself` | fs-mover-overwrite.go:7-17 | moving a file onto itself succeeds without renaming; a directory onto itself is rejected as a same-directory move |
| `MoveDispatch.PoliciesDiffer` | fs-mover-tentative.go:11-21 | the policies decide differently only for a file source whose destination exists |
| `MoveDispatch.MoveRenamesFile` | fs-mover.go:80-92 | carried out, a move of a file to a missing name elsewhere succeeds exactly when the new name's parent is a directory, then leaves the file's entry at `to` and nothing at `from`; a failure changes nothing |
| `MoveDispatch.MoveDirectoryClashRefused` | fs-mover.go:104-116 | carried out, a directory moved into a directory that already holds a directory of its name fails with ErrExist and changes nothing, under either policy |
| `MoveDispatch.JoinResolves` | fs-mover.go:88-91 | `filepath.Join(root, name)` names the very entry the existence probe stats |
| `FsMover.NoOpHandler` | fs-mover.go:39-41 | always succeeds |
| `FsMover.Mover.constructor` | fs-mover.go:131-150 | a mover for the given root, policy and file system, with an empty table until `create` |
| `FsMover.Mover.Create` | fs-mover-overwrite.go:7-17 | installs the overwrite or the tentative table according to the policy |
| `FsMover.Mover.MoveItemWithName` | fs-mover.go:80-92 | rejects a same-directory move without renaming, otherwise exactly one rename root/from to root/to |
| `FsMover.Mover.MoveDirectoryWithName` | fs-mover-tentative.go:23-32 | rejects a same-directory move, otherwise behaves exactly as MoveItemWithName |
| `FsMover.Mover.MoveItemWithoutName` | fs-mover.go:94-102 | exactly one rename root/from to root/to/Base(from) |
| `FsMover.Mover.TentativeMoveItemWithoutName` | fs-mover-tentative.go:34-43 | rejects without renaming when to/Base(from) exists, otherwise as the base handler |
| `FsMover.Mover.MoveItemWithoutNameClash` | fs-mover.go:104-116 | rejects as same-directory when the base names match, otherwise as MoveItemWithoutName |
| `FsMover.Mover.RejectOverwriteOrNoOp` | fs-mover-tentative.go:45-55 | succeeds, renaming nothing, exactly when the two directories are equal |
| `FsMover.Mover.Move` | fs-mover.go:43-54 | storage, rename log and error are those of MovePlan on the storage before the call: at most one rename, handler errors returned as they are |
| `FsMover.LazyMover.Instance` | fs-mover.go:123-129 | the first call builds a mover for its arguments; later calls return that same mover whatever they pass |
| `FsMover.LazyMover.constructor` | lazy-object.go:15-19 | no mover built yet |
| `ChangeDispatch.Guard` | fs-changer.go:32-40 | fails, with an invalid-path error, exactly when the new name holds '/' |
| `ChangeDispatch.Fill` | fs-changer.go:68-74 | the new name placed after the parent of `from`, or "/" + name when `from` has no '/' |
| `ChangeDispatch.ChangePlan` | fs-changer.go:42-54 | a '/' in `to` gives InvalidPath(to); a missing source gives InvalidBinaryFsOp labelled "Move"; any rename is root/from to root/Fill(from,to) |
| `ChangeDispatch.ChangeTablesShape` | fs-changer.go:133-157 | the tables share four keys, all with an existing source, and differ only on an existing file onto an existing file |
| `ChangeDispatch.ChangeRejectsSeparator` | fs-changer.go:32-40 | a new name holding '/' fails as an invalid path and leaves storage unchanged |
| `ChangeDispatch.ChangeFileOntoFile` | fs-changer.go:148-163 | file onto existing file: overwrite renames, tentative rejects with the "Change" label |
| `ChangeDispatch.ChangeToOwnName` | fs-changer.go:76-87 | a nested item given its own name: a directory, or anything under overwrite, succeeds without renaming; a tentative file is rejected |
| `ChangeDispatch.OverwriteChangeReplaces` | fs-changer.go:133-142 | carried out under overwrite, the source's entry replaces the clashing file and nothing remains at the old name |
| `ChangeDispatch.TopLevelChangeToOwnName` | fs-changer.go:68-87 | an existing top-level file given its own name: under overwrite it is renamed onto itself, which changes nothing; under tentative it is rejected with the "Change" label |
| `ChangeDispatch.TopLevelDirectoryChangeToOwnName` | fs-changer.go:68-87 | an existing top-level directory given its own name fails with ErrExist under either policy, and nothing changes |
| `ChangeDispatch.SamePlace` | fs-changer.go:68-74 | a name and "/" + name are stat'ed at the same entry |
| `FsChanger.Changer.Create` | fs-changer.go:133-157 | installs the overwrite or the tentative table according to the policy |
| `FsChanger.Changer.constructor` | fs-changer.go:102-127 | a changer for the given root, policy and file system, with an empty table until `create` |
| `FsChanger.Changer.Rename` | fs-changer.go:76-87 | no rename when Fill(from,to) is `from`, otherwise exactly one rename root/from to root/Fill(from,to) |
| `FsChanger.Changer.RejectFileOverwrite` | fs-changer.go:159-163 | always fails with InvalidBinaryFsOp("Change", from, to) |
| `FsChanger.Changer.Change` | fs-changer.go:42-54 | storage, rename log and error are those of ChangePlan on the storage before the call |
| `FsChanger.LazyChanger.Instance` | fs-changer.go:94-100 | the first call builds the changer; later calls return that same changer |
| `FsChanger.LazyChanger.constructor` | lazy-object.go:15-19 | no changer built yet |
| `FsRelative.SplitParent` | fs-relative.go:303-307 | the last part holds no '/', and with a '/' the parts rejoin to the name; without one the parent is "" |
| `FsRelative.MakeDirGuards` | fs-relative.go:238-268 | invalid names are rejected and existing directories left alone, without touching storage; success leaves a directory; MakeDirAll twice is MakeDirAll once |
| `FsRelative.EnsureCases` | fs-relative.go:283-310 | invalid name: "" and an invalid-path error; existing file: its base name; existing directory: the default; a missing directory: made; a missing file: the text after the last '/' (its base name when it has a '/'), with exactly `MakeDirAll` of its parent as the effect |
| `FsRelative.EnsureTopLevelFile` | fs-relative.go:303-307 | a missing top-level name ensured as a file fails: its parent "" is not a valid name |
| `FsRelative.CreateGuard` | fs-relative.go:375-386 | tentative refuses an existing file with ErrExist and no change, and ErrExist arises only so; a success leaves an empty file; it succeeds exactly for a valid non-directory name not refused by the policy that is a file or has a directory parent |
| `FsRelative.WriteFileStores` | fs-relative.go:393-400 | succeeds exactly for a valid name that is not a directory and is a file or has a directory parent, leaving exactly the data there; a failure changes nothing |
| `FsRelative.RemoveGuards` | fs-relative.go:318-333 | invalid names are rejected without touching storage; a successful `Remove` leaves nothing there; `RemoveAll` of any other valid name but "." succeeds and leaves nothing there exactly when no ancestor is a file, and otherwise both are ENOTDIR with no change; "." (the root followed by "/.") is refused by both, with EINVAL for a root directory, and nothing changes; a missing name reached without a file on the way is ErrNotExist |
| `FsRelative.RemoveValidName` | fs-relative.go:318-333 | for a valid name other than ".": `RemoveAll` clears it unless a file lies on the way, where both removals are ENOTDIR on the joined path with no change; a missing name is ErrNotExist |
| `FsRelative.RemoveDotName` | fs-relative.go:318-333 | "." names the root followed by "/.", which `RemoveAll` refuses with EINVAL; `Remove` refuses it with EINVAL when the root is a directory (rmdir's error), ENOTDIR when it is or lies below a file, ErrNotExist when nothing is there; nothing changes |
| `FsRelative.RelativeFS.constructor` | fs-relative.go:497-499 | a file system for the root and policy, with no mover or changer built yet |
| `FsRelative.RelativeFS.MakeDir` | fs-relative.go:238-249 | new storage and error are MakeDirEffect's (see MakeDirGuards) |
| `FsRelative.RelativeFS.MakeDirAll` | fs-relative.go:258-268 | new storage and error are MakeDirAllEffect's (see MakeDirGuards) |
| `FsRelative.RelativeFS.Ensure` | fs-relative.go:283-310 | result, storage and error are EnsureEffect's (see EnsureCases) |
| `FsRelative.RelativeFS.Create` | fs-relative.go:375-386 | new storage and error are CreateEffect's (see CreateGuard) |
| `FsRelative.RelativeFS.WriteFile` | fs-relative.go:393-400 | new storage and error are WriteFileEffect's (see WriteFileStores) |
| `FsRelative.RelativeFS.Remove` | fs-relative.go:318-325 | new storage and error are RemoveEffect's on the cleaned name (see RemoveGuards) |
| `FsRelative.RelativeFS.RemoveAll` | fs-relative.go:327-333 | new storage and error are RemoveAllEffect's on the cleaned name (see RemoveGuards) |
| `FsRelative.RelativeFS.Rename` | fs-relative.go:343-348 | one unguarded rename of the root-joined names, logged |
| `FsRelative.RelativeFS.Copy` | fs-relative.go:201-203 | always fails with an error that wraps no sentinel |
| `FsRelative.RelativeFS.CopyFS` | fs-relative.go:207-210 | always fails with an error that wraps no sentinel |
| `FsRelative.RelativeFS.Move` | fs-relative.go:442-448 | carries out MovePlan for this file system's root and policy, keeping the lazily built mover consistent |
| `FsRelative.RelativeFS.Change` | fs-relative.go:450-456 | carries out ChangePlan for this file system's root and policy, keeping the lazily built changer consistent |
| `FsAbsolute.ExistsExclusive` | fs-absolute.go:41-66 | FileExists and DirectoryExists never hold together, and both fail when Stat fails |
| `FsAbsolute.AbsoluteFS.constructor` | fs-absolute.go:13-18 | an absolute file system over the given native storage |
| `FsAbsolute.EnsureDirectory` | fs-absolute.go:127-148 | as a directory: the cleaned join of name and default, with the name created by MkdirAll |
| `FsAbsolute.EnsureExistingFile` | fs-absolute.go:127-148 | as an existing file: the name unchanged, no error, the file still there |
| `FsAbsolute.EnsureNewFile` | fs-absolute.go:127-148 | as a missing file: the cleaned name, with the error of creating its directory part |
| `FsAbsolute.AbsoluteFS.FileExists` | fs-absolute.go:41-52 | true exactly when Stat finds a non-directory |
| `FsAbsolute.AbsoluteFS.DirectoryExists` | fs-absolute.go:55-66 | true exactly when Stat finds a directory |
| `FsAbsolute.AbsoluteFS.Ensure` | fs-absolute.go:127-148 | result, storage and error are EnsureEffect's (see the three Ensure lemmas) |
| `Separate.Separate` | separate.go:9-31 | the first group holds only files, the second only directories, and together they are as long as the input |
| `Separate.SeparatePermutes` | separate.go:9-31 | the two groups together are a permutation of the entries |
| `Separate.SeparateSnoc` | separate.go:10-12 | one more entry lands at the end of the group of its kind |
| `Separate.SeparateConcat` | separate.go:10-12 | separating a concatenation concatenates the groups, so input order is kept within each group |
| `Separate.AllFiles` | separate.go:23-25 | only files: all in the first group, the second empty |
| `Separate.AllFolders` | separate.go:26-28 | only directories: all in the second group, the first empty |
| `Separate.EntryPlacement` | separate.go:9-31 | each entry is in the group of its kind and not in the other |
| `EnsurePathAt.Parts` | ensure-path-at.go:32-37 | a path ending in '/' is the directory with the default file; any other is split at its last '/' |
| `EnsurePathAt.AtIsCleanedPath` | ensure-path-at.go:47 | the result is the cleaned path, or the cleaned path followed by the default name for a directory path |
| `EnsurePathAt.AtValidFile` | ensure-path-at.go:32-47 | a valid file path comes back unchanged |
| `EnsurePathAt.AtValidDirectory` | ensure-path-at.go:32-47 | a directory path comes back as the directory followed by the default name whenever that is valid |
| `EnsurePathAt.EnsurePathAt` | ensure-path-at.go:25-48 | returns the cleaned join; on a given file system MakeDirAll runs only when the directory is missing; otherwise native MkdirAll |
| `EnsurePathAt.RelativeDirectoryRefused` | ensure-path-at.go:39-42 | on the relative file system the directory part of every path is refused as an invalid path without touching storage, so every missing directory is refused |
| `ResolvePath.ResolvePath` | resolve-path.go:14-55 | '~' with a home resolves to the cleaned home-joined rest; a failing resolver gives the path back; otherwise the absolute resolver's answer |
| `ResolvePath.Abs` | resolve-path.go:44-50 | a rooted path is just cleaned, with or without a working directory; any other path fails exactly when the working directory is unknown |
| `ResolvePath.ResolvedIsAbsolute` | resolve-path.go:14-55 | with rooted home and working directory, the result is rooted and clean unless a resolver failed |
| `ResolvePath.ResolveIdempotent` | resolve-path.go:14-55 | resolving a resolved path gives it back |
| `MapFs.DirEntry` | luna/mem-fs.go:65-77 | a directory entry carries the directory bit and the requested permission bits |
| `MapFs.Matched` | luna/mem-fs.go:139-143 | exactly the keys having the path as a string prefix |
| `MapFs.ExistsExclusive` | luna/mem-fs.go:31-45 | FileExists and DirectoryExists never hold together, and one holds exactly for a key |
| `MapFs.ImplicitDirectory` | luna/mem-fs.go:47-50 | an implicit parent is neither file nor directory to the queries, yet Create refuses it |
| `MapFs.AddEffect` | luna/mem-fs.go:47-63 | refused without change exactly when Stat finds the name; otherwise exactly one entry added, all others kept |
| `MapFs.MakeDirEffect` | luna/mem-fs.go:65-77 | invalid names rejected; an existing key never replaced; otherwise one directory added |
| `MapFs.AddDirsKeeps` | luna/mem-fs.go:79-102 | visiting prefixes never changes an entry already present |
| `MapFs.AddDirsVisited` | luna/mem-fs.go:79-102 | every visited prefix is a key afterwards |
| `MapFs.AddDirsNew` | luna/mem-fs.go:79-102 | every key added is a directory at a visited prefix |
| `MapFs.AddDirsEffect` | luna/mem-fs.go:79-102 | after i visits every visited prefix is a key, old keys keep their entries, new keys are directories at visited prefixes |
| `MapFs.MakeDirAllEffect` | luna/mem-fs.go:79-102 | every '/'-prefix of a valid name, itself included, is a key; old keys untouched; every new key a directory at such a prefix |
| `MapFs.RemoveEffect` | luna/mem-fs.go:130-137 | deletes exactly the one present key, or fails with ErrNotExist and no change |
| `MapFs.RemoveAllEffect` | luna/mem-fs.go:139-154 | keeps exactly the keys without the prefix; ErrNotExist with no change exactly when none has it |
| `MapFs.RemoveAllSibling` | luna/mem-fs.go:139-154 | removing "a" also removes a sibling "ab" |
| `MapFs.RenameEffect` | luna/mem-fs.go:156-165 | a present entry moves to `to`, replacing it, other keys kept; an absent source gives ErrNotExist and no change |
| `MapFs.RenameBack` | luna/mem-fs.go:156-165 | renaming to a free name and back restores the storage |
| `MapFs.AddPrefixDirs` | luna/mem-fs.go:79-102 | the reduce loop leaves exactly the storage of visiting every prefix |
| `MapFs.DeleteKeys` | luna/mem-fs.go:150-152 | the deletion loop removes exactly the matched keys |
| `LunaMemFs.MemFS.constructor` | luna/mem-fs.go:25-29 | empty storage |
| `LunaMemFs.MemFS.FileExists` | luna/mem-fs.go:31-37 | a key whose mode is not a directory |
| `LunaMemFs.MemFS.DirectoryExists` | luna/mem-fs.go:39-45 | a key whose mode is a directory |
| `LunaMemFs.MemFS.Create` | luna/mem-fs.go:47-63 | as AddOutcome with an empty file of mode 0o666 (see AddEffect) |
| `LunaMemFs.MemFS.MakeDir` | luna/mem-fs.go:65-77 | as MakeDirOutcome (see MakeDirEffect) |
| `LunaMemFs.MemFS.MakeDirAll` | luna/mem-fs.go:79-102 | as MakeDirAllOutcome (see MakeDirAllEffect) |
| `LunaMemFs.MemFS.Ensure` | luna/mem-fs.go:105-107 | not implemented: "" and no error |
| `LunaMemFs.MemFS.Move` | luna/mem-fs.go:110-112 | not implemented: succeeds doing nothing |
| `LunaMemFs.MemFS.Change` | luna/mem-fs.go:115-117 | not implemented: succeeds doing nothing |
| `LunaMemFs.MemFS.Copy` | luna/mem-fs.go:120-122 | not implemented: succeeds doing nothing |
| `LunaMemFs.MemFS.CopyFS` | luna/mem-fs.go:124-126 | not implemented: succeeds doing nothing |
| `LunaMemFs.MemFS.Remove` | luna/mem-fs.go:130-137 | as RemoveOutcome (see RemoveEffect) |
| `LunaMemFs.MemFS.RemoveAll` | luna/mem-fs.go:139-154 | as RemoveAllOutcome (see RemoveAllEffect) |
| `LunaMemFs.MemFS.Rename` | luna/mem-fs.go:156-165 | as RenameOutcome (see RenameEffect) |
| `LunaMemFs.MemFS.WriteFile` | luna/mem-fs.go:167-178 | as AddOutcome with the data and mode (see AddEffect) |
| `TestLunaMemFs.Written` | test/luna/fs-mem.go:237-243 | the data up to the cursor is kept and followed by exactly the bytes written; the cursor is at the new end |
| `TestLunaMemFs.ReadCount` | test/luna/fs-mem.go:226-235 | never more than the room or than remains; some byte whenever any remains and there is room |
| `TestLunaMemFs.WriteTwice` | test/luna/fs-mem.go:237-243 | two writes in a row are one write of both |
| `TestLunaMemFs.ReadAfterWrite` | test/luna/fs-mem.go:226-243 | after a write the next read finds nothing |
| `TestLunaMemFs.ReadSplits` | test/luna/fs-mem.go:226-235 | two reads cover the same bytes as one read with room for both |
| `TestLunaMemFs.FileAdapter.constructor` | test/luna/fs-mem.go:66 | an adapter for the name, empty, cursor at 0 |
| `TestLunaMemFs.FileAdapter.Read` | test/luna/fs-mem.go:226-235 | EOF at the end; otherwise copies ReadCount bytes from the cursor into the front of the buffer, leaves the rest, and advances the cursor, never past the end |
| `TestLunaMemFs.FileAdapter.Write` | test/luna/fs-mem.go:237-243 | data and cursor become Written's, returning the length written and no error |
| `TestLunaMemFs.FileAdapter.Stat` | test/luna/fs-mem.go:249-254 | the name, the data length as size, not a directory, file permissions |
| `TestLunaMemFs.MemFS.constructor` | test/luna/fs-mem.go:30-35 | empty storage |
| `TestLunaMemFs.MemFS.FileExists` | test/luna/fs-mem.go:45-51 | a key whose mode is not a directory |
| `TestLunaMemFs.MemFS.DirectoryExists` | test/luna/fs-mem.go:53-59 | a key whose mode is a directory |
| `TestLunaMemFs.MemFS.Create` | test/luna/fs-mem.go:61-70 | ErrExist when Stat finds the name; otherwise a fresh adapter whose empty data is stored under the name |
| `TestLunaMemFs.MemFS.MakeDir` | test/luna/fs-mem.go:72-84 | as MakeDirOutcome (see MakeDirEffect) |
| `TestLunaMemFs.MemFS.MakeDirAll` | test/luna/fs-mem.go:86-109 | as MakeDirAllOutcome (see MakeDirAllEffect) |
| `TestLunaMemFs.MemFS.Ensure` | test/luna/fs-mem.go:112-114 | not implemented: "" and no error |
| `TestLunaMemFs.MemFS.Move` | test/luna/fs-mem.go:117-119 | not implemented: succeeds doing nothing |
| `TestLunaMemFs.MemFS.Change` | test/luna/fs-mem.go:122-124 | not implemented: succeeds doing nothing |
| `TestLunaMemFs.MemFS.Copy` | test/luna/fs-mem.go:127-129 | not implemented: succeeds doing nothing |
| `TestLunaMemFs.MemFS.CopyFS` | test/luna/fs-mem.go:131-133 | not implemented: succeeds doing nothing |
| `TestLunaMemFs.MemFS.Remove` | test/luna/fs-mem.go:137-144 | as RemoveOutcome (see RemoveEffect) |
| `TestLunaMemFs.MemFS.RemoveAll` | test/luna/fs-mem.go:146-161 | as RemoveAllOutcome (see RemoveAllEffect) |
| `TestLunaMemFs.MemFS.Rename` | test/luna/fs-mem.go:163-172 | as RenameOutcome (see RenameEffect) |
| `TestLunaMemFs.MemFS.WriteFile` | test/luna/fs-mem.go:174-185 | as AddOutcome with the data and mode (see AddEffect) |
| `Laboratory.TestTraverseFS.constructor` | internal/laboratory/traverse-fs.go:17-19 | a file system over the given map |
| `Laboratory.TestTraverseFS.FileExists` | internal/laboratory/traverse-fs.go:21-27 | a key whose mode is not a directory |
| `Laboratory.TestTraverseFS.DirectoryExists` | internal/laboratory/traverse-fs.go:29-35 | a key whose mode is a directory |
| `Laboratory.TestTraverseFS.Create` | internal/laboratory/traverse-fs.go:37-53 | as AddOutcome with an empty file of mode 0o666 (see AddEffect) |
| `Laboratory.TestTraverseFS.MakeDir` | internal/laboratory/traverse-fs.go:55-67 | as MakeDirOutcome (see MakeDirEffect) |
| `Laboratory.TestTraverseFS.MakeDirAll` | internal/laboratory/traverse-fs.go:69-92 | as MakeDirAllOutcome (see MakeDirAllEffect) |
| `Laboratory.TestTraverseFS.WriteFile` | internal/laboratory/traverse-fs.go:94-105 | as AddOutcome with the data and mode (see AddEffect) |

## Left out

- **Native storage (`os.*`) is a map from lexically cleaned path to entry, with simplified semantics:**
  - Permission bits and the umask are ignored, and symbolic links do not exist.
  - The exact wording of OS error messages is left out; only the operation, the path and the sentinel are kept.
  - `/` and `.` always exist as parents, whatever the map holds.
- OsDisk.Disk.Rename: re-keys one entry and does not carry the entries below a directory along. Its `*LinkError` is modelled as a path error on the old name.
- OsDisk.Disk.MkdirAll: the first file on the way is named by its cleaned form, where `os.MkdirAll` names the matching prefix of the path exactly as it was given.
- OsDisk.Disk.RemoveAll: its ENOTDIR for a path through a file carries the operation "RemoveAll" and the given path, where Go's error names the `open` or `unlinkat` step and the path that step used.
- OsDisk.Disk.Stat: the path "" is looked up as ".", where the OS reports ErrNotExist.
- **Permissions:** the `Perm` field of `PathAs`, and the `perm` argument of the relative and absolute `MakeDir`/`MakeDirAll`/`WriteFile`, are not modelled. They only reach the OS.
- **`SplitParent`** (called at fs-relative.go:304) is reconstructed as `FsRelative.SplitParent`: the parent (as `Parent`) and the text after the last '/'.
- **`NewInvalidPathError` call sites** pass an operation name as well as the path. The model keeps the error's one path argument.
- **`sync.Once`:** the lazy mover and changer are modelled sequentially, as built on first use and then fixed.
- **File handles:** the `*os.File` / `fs.File` values that `Create` returns are left out, except the test file system's `FileAdapter`.
- **Integer widths:** `FileAdapter.pos` is an `int64` and `n` an `int`. They are unbounded here, so overflow past 2^63 bytes is not modelled.
- **Loop helpers in `MapFs`:** `AddPrefixDirs` and `DeleteKeys` return the new map rather than updating one in place. The class methods assign the result to their `files` field. The delete loop removes the matched keys in an arbitrary order, which does not affect the result.
- **`absoluteFS.Move`, `Change` and `Copy`:** they panic, so they are not modelled. `absoluteFS`'s other storage calls are the `OsDisk.Disk` methods themselves.
- **Pass-through members:** `Open`, `ReadFile`, `ReadDir`, `Stat`, `Calc` and `IsRelative` are not modelled. The same applies to the `compose`/`mutate` wiring of `fs-relative.go`.
- **`EnsurePathAt`'s optional file system:** it accepts any `MakeDirFS`. The model takes the relative file system, or none for the native storage.
- **`ResolvePath`'s resolvers:** `os.UserHomeDir` and `filepath.Abs` (or their overrides) are parameters. The default branch has the same shape as the override branch and is represented by it.
- **`Separate` empty groups:** Go distinguishes a nil slice from an empty one. Here, every empty group is the empty sequence, which is what the code guarantees.
- **`io/fs.ValidPath`:** the UTF-8 validity check is left out, because strings are sequences of characters.

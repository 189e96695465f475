/** The native file system the relative file system delegates to (`os.Stat`,
    `os.Mkdir`, `os.MkdirAll`, `os.Create`, `os.WriteFile`, `os.Remove`,
    `os.RemoveAll`, `os.Rename`), as a map from cleaned absolute path to entry.
    The OS resolves a path lexically here: every call looks its path up under
    `filepath.Clean`. */
module OsDisk {
  import opened Wrappers
  import opened Errors
  import opened Strings
  import GoPath

  datatype Entry = File(data: seq<bv8>) | Directory

  type Items = map<string, Entry>

  /** What a storage call returns and leaves behind. */
  datatype Outcome = Outcome(err: Option<Error>, items: Items)

  function Key(path: string): string {
    GoPath.Clean(path)
  }

  function Lookup(items: Items, path: string): Option<Entry> {
    if Key(path) in items then Some(items[Key(path)]) else None
  }

  predicate FileAt(items: Items, path: string) {
    Lookup(items, path).Some? && Lookup(items, path).value.File?
  }

  predicate DirAt(items: Items, path: string) {
    Lookup(items, path) == Some(Directory)
  }

  /** Key `k` lies strictly inside directory key `dir`. */
  predicate Below(k: string, dir: string) {
    k != dir && HasPrefix(k, if dir == [GoPath.Separator] then dir else dir + [GoPath.Separator])
  }

  /** A path whose last element is "." (`os.RemoveAll` refuses it, and so does
      the `rmdir` under `os.Remove`). */
  predicate EndsWithDot(path: string) {
    path == "." || (|path| >= 2 && path[|path| - 1] == '.' && path[|path| - 2] == GoPath.Separator)
  }

  /** The OS root and the working directory, which are always there to hold a
      new entry. */
  predicate IsRootKey(k: string) {
    k == [GoPath.Separator] || k == "."
  }

  /** Why no new entry can be made at key `k`: the way to it runs through a
      file, or its parent is missing. `None` when the parent is a directory. */
  function ParentFault(items: Items, k: string): Option<Sentinel> {
    var p := GoPath.Dir(k);
    if FileAncestor(items, k).Some? then Some(NotDirectory)
    else if IsRootKey(p) || (p in items && items[p].Directory?) then None
    else if p in items then Some(NotDirectory)
    else Some(NotExist)
  }

  /** The parent of the entry `path` names is a directory. */
  predicate ParentIsDir(items: Items, path: string) {
    ParentFault(items, Key(path)).None?
  }

  /** The proper ancestors of key `k` that `MkdirAll` may have to create: the
      text before each separator after the first character. */
  function Ancestors(k: string): set<string> {
    set i | 0 < i < |k| && k[i] == GoPath.Separator :: k[..i]
  }

  /** No proper ancestor `k[..j]` with `lo <= j < hi` is a file. */
  predicate NoFileAncestorBetween(items: Items, k: string, lo: nat, hi: nat) {
    forall j :: lo <= j < hi && 0 < j < |k| && k[j] == GoPath.Separator ==>
      !(k[..j] in items && items[k[..j]].File?)
  }

  /** The first file among the ancestors of `k` from position `i` on. */
  function FileAncestorFrom(items: Items, k: string, i: nat): (r: Option<string>)
    requires i <= |k|
    ensures r.Some? ==> r.value in Ancestors(k) && r.value in items && items[r.value].File?
    ensures r.Some? ==> i <= |r.value| && NoFileAncestorBetween(items, k, i, |r.value|)
    ensures r.None? ==> NoFileAncestorBetween(items, k, i, |k|)
    decreases |k| - i
  {
    if i == |k| then None
    else if 0 < i && k[i] == GoPath.Separator && k[..i] in items && items[k[..i]].File? then
      assert k[..i] in Ancestors(k);
      Some(k[..i])
    else FileAncestorFrom(items, k, i + 1)
  }

  /** The shortest ancestor of `k` that is a file, if any: where the OS stops
      when it walks the path from the top, with `ENOTDIR`. */
  function FileAncestor(items: Items, k: string): (r: Option<string>)
    ensures r.Some? ==> r.value in Ancestors(k) && r.value in items && items[r.value].File?
    ensures forall a :: a in Ancestors(k) && (r.Some? ==> |a| < |r.value|) ==> !(a in items && items[a].File?)
  {
    var r := FileAncestorFrom(items, k, 0);
    assert forall a :: a in Ancestors(k) && (r.Some? ==> |a| < |r.value|) ==> !(a in items && items[a].File?) by {
      forall a | a in Ancestors(k) && (r.Some? ==> |a| < |r.value|)
        ensures !(a in items && items[a].File?)
      {
        var j :| 0 < j < |k| && k[j] == GoPath.Separator && k[..j] == a;
        assert |a| == j;
      }
    }
    r
  }

  /** `os.Mkdir`: the empty path does not exist; an existing entry is refused;
      the parent must be a directory. */
  function MkdirOutcome(items: Items, path: string): Outcome {
    var k := Key(path);
    if path == "" then Outcome(Some(PathError("mkdir", path, NotExist)), items)
    else if k in items then Outcome(Some(PathError("mkdir", path, Exist)), items)
    else if ParentFault(items, k).Some? then Outcome(Some(PathError("mkdir", path, ParentFault(items, k).value)), items)
    else Outcome(None, items[k := Directory])
  }

  /** `os.MkdirAll`: nothing to do for an existing directory; a file in the way
      is refused, naming the path itself or the first file ancestor; otherwise
      the path and every missing ancestor become directories. */
  function MkdirAllOutcome(items: Items, path: string): Outcome {
    var k := Key(path);
    if path == "" then Outcome(Some(PathError("mkdir", path, NotExist)), items)
    else if k in items && items[k].Directory? then Outcome(None, items)
    else if k in items then Outcome(Some(PathError("mkdir", path, NotDirectory)), items)
    else if FileAncestor(items, k).Some? then
      Outcome(Some(PathError("mkdir", FileAncestor(items, k).value, NotDirectory)), items)
    else Outcome(None, items + map a | a in Ancestors(k) + {k} && a !in items :: Directory)
  }

  /** `os.Create` and `os.WriteFile`: truncate or create a file holding `data`;
      a new file needs a directory for its parent. */
  function WriteOutcome(items: Items, path: string, data: seq<bv8>): Outcome {
    var k := Key(path);
    if path == "" then Outcome(Some(PathError("open", path, NotExist)), items)
    else if k in items && items[k].Directory? then Outcome(Some(PathError("open", path, IsDirectory)), items)
    else if k !in items && ParentFault(items, k).Some? then
      Outcome(Some(PathError("open", path, ParentFault(items, k).value)), items)
    else Outcome(None, items[k := File(data)])
  }

  /** `os.Remove`: a file or an empty directory; a path through a file or
      ending in "." is refused. */
  function RemoveOutcome(items: Items, path: string): Outcome {
    var k := Key(path);
    if path == "" then Outcome(Some(PathError("remove", path, NotExist)), items)
    else if FileAncestor(items, k).Some? then Outcome(Some(PathError("remove", path, NotDirectory)), items)
    else if k !in items then Outcome(Some(PathError("remove", path, NotExist)), items)
    else if EndsWithDot(path) then
      Outcome(Some(PathError("remove", path, if items[k].File? then NotDirectory else Invalid)), items)
    else if exists c :: c in items && Below(c, k) then Outcome(Some(PathError("remove", path, NotEmpty)), items)
    else Outcome(None, items - {k})
  }

  /** `os.RemoveAll`: the empty path is nothing to do; a path ending in "." or
      running through a file is refused; otherwise the entry and everything
      below it go, and a missing entry is no error. */
  function RemoveAllOutcome(items: Items, path: string): Outcome {
    var k := Key(path);
    if path == "" then Outcome(None, items)
    else if EndsWithDot(path) then Outcome(Some(PathError("RemoveAll", path, Invalid)), items)
    else if FileAncestor(items, k).Some? then Outcome(Some(PathError("RemoveAll", path, NotDirectory)), items)
    else Outcome(None, map c | c in items && c != k && !Below(c, k) :: items[c])
  }

  /** `os.Rename` on Unix: an existing directory destination is refused with
      `EEXIST` unless it is the source under another spelling; renaming an entry
      onto itself does nothing; then `rename(2)`: a directory cannot move below
      itself nor onto a file, and a new name needs a directory for its parent.
      A file replaces a file. */
  function RenameOutcome(items: Items, from: string, to: string): Outcome {
    var s, d := Key(from), Key(to);
    if from == "" || to == "" || s !in items then Outcome(Some(PathError("rename", from, NotExist)), items)
    else if d in items && items[d].Directory? && (from == to || s != d) then
      Outcome(Some(PathError("rename", from, Exist)), items)
    else if s == d then Outcome(None, items)
    else if items[s].Directory? && Below(d, s) then Outcome(Some(PathError("rename", from, Invalid)), items)
    else if d in items && items[s].Directory? then Outcome(Some(PathError("rename", from, NotDirectory)), items)
    else if d !in items && ParentFault(items, d).Some? then
      Outcome(Some(PathError("rename", from, ParentFault(items, d).value)), items)
    else Outcome(None, (items - {s})[d := items[s]])
  }

  /** `MkdirAll` only ever adds directories: whether a path is a file is the
      same before and after. */
  lemma MkdirAllKeepsFiles(items: Items, dir: string, path: string)
    ensures FileAt(MkdirAllOutcome(items, dir).items, path) <==> FileAt(items, path)
  {
  }

  /** A successful `MkdirAll` leaves the path and each of its ancestors a
      directory, keeps every entry that was there, and adds nothing else. */
  lemma MkdirAllMakesAncestors(items: Items, path: string)
    ensures var o := MkdirAllOutcome(items, path);
            o.err == None ==>
              DirAt(o.items, path) &&
              (forall c :: c in items ==> c in o.items && o.items[c] == items[c]) &&
              (forall c :: c in o.items && c !in items ==> c == Key(path) || c in Ancestors(Key(path)))
    ensures var o := MkdirAllOutcome(items, path);
            o.err == None && Key(path) !in items ==>
              forall a :: a in Ancestors(Key(path)) ==> a in o.items && o.items[a].Directory?
  {
    var k := Key(path);
    var o := MkdirAllOutcome(items, path);
    if o.err == None && k !in items {
      forall a | a in Ancestors(k)
        ensures a in o.items && o.items[a].Directory?
      {
        assert !(a in items && items[a].File?);
      }
    }
  }

  /** `Mkdir` creates nothing without a directory for a parent, and refuses an
      existing entry and the empty path. */
  lemma MkdirNeedsParent(items: Items, path: string)
    ensures var o := MkdirOutcome(items, path);
            (o.err == None <==> path != "" && Key(path) !in items && ParentIsDir(items, path)) &&
            (path == "" ==> o.err == Some(PathError("mkdir", path, NotExist))) &&
            (o.err != None ==> o.items == items) &&
            (o.err == None ==> o.items == items[Key(path) := Directory])
  {
  }

  /** A new file needs a directory for its parent; an existing file is replaced;
      the empty path does not exist. */
  lemma WriteNeedsParent(items: Items, path: string, data: seq<bv8>)
    ensures var o := WriteOutcome(items, path, data);
            (o.err == None <==> path != "" && !DirAt(items, path) && (FileAt(items, path) || ParentIsDir(items, path))) &&
            (path == "" ==> o.err == Some(PathError("open", path, NotExist))) &&
            (o.err != None ==> o.items == items) &&
            (o.err == None ==> o.items == items[Key(path) := File(data)])
  {
  }

  /** A path ending in "." is never removed, by either call. */
  lemma RemoveDotRefused(items: Items, path: string)
    requires EndsWithDot(path)
    ensures RemoveOutcome(items, path).items == items && RemoveOutcome(items, path).err.Some?
    ensures RemoveAllOutcome(items, path) == Outcome(Some(PathError("RemoveAll", path, Invalid)), items)
  {
  }

  /** `RemoveAll` of any other non-empty path succeeds exactly when no ancestor
      is a file, and then leaves nothing at or below its key, keeping every entry
      elsewhere; through a file it fails with `ENOTDIR` and changes nothing. */
  lemma RemoveAllClears(items: Items, path: string)
    requires path != "" && !EndsWithDot(path)
    ensures var o := RemoveAllOutcome(items, path);
            (o.err == None <==> FileAncestor(items, Key(path)).None?) &&
            (o.err != None ==> o == Outcome(Some(PathError("RemoveAll", path, NotDirectory)), items))
    ensures var o := RemoveAllOutcome(items, path);
            o.err == None ==>
            Key(path) !in o.items &&
            (forall c :: c in o.items ==> !Below(c, Key(path))) &&
            (forall c :: c in items && c != Key(path) && !Below(c, Key(path)) ==> c in o.items && o.items[c] == items[c])
  {
  }

  /** A path that runs through a file is neither removed nor made: `Remove`,
      `RemoveAll` and `MkdirAll` all fail with `ENOTDIR` and change nothing, and
      `MkdirAll` names the first file on the way. */
  lemma ThroughFileRefused(items: Items, path: string)
    requires path != "" && FileAncestor(items, Key(path)).Some?
    ensures RemoveOutcome(items, path) == Outcome(Some(PathError("remove", path, NotDirectory)), items)
    ensures !EndsWithDot(path) ==>
              RemoveAllOutcome(items, path) == Outcome(Some(PathError("RemoveAll", path, NotDirectory)), items)
    ensures !(Key(path) in items && items[Key(path)].Directory?) ==>
              var a := FileAncestor(items, Key(path)).value;
              MkdirAllOutcome(items, path).items == items &&
              MkdirAllOutcome(items, path).err.Some? &&
              Is(MkdirAllOutcome(items, path).err, NotDirectory) &&
              (Key(path) !in items ==> MkdirAllOutcome(items, path).err == Some(PathError("mkdir", a, NotDirectory))) &&
              a in Ancestors(Key(path)) && a in items && items[a].File?
  {
  }

  /** `Rename` onto an existing directory fails (and changes nothing) unless it
      names the source itself under another spelling. */
  lemma RenameOntoDirectoryRefused(items: Items, from: string, to: string)
    requires from != "" && to != "" && Key(from) in items
    requires DirAt(items, to) && (from == to || Key(from) != Key(to))
    ensures RenameOutcome(items, from, to) == Outcome(Some(PathError("rename", from, Exist)), items)
  {
  }

  /** A successful rename between two different keys leaves the source's entry
      at the destination and nothing at the source. */
  lemma RenameMoves(items: Items, from: string, to: string)
    requires Key(from) != Key(to)
    ensures var o := RenameOutcome(items, from, to);
            (o.err == None ==> Key(from) !in o.items && Lookup(o.items, to) == Lookup(items, from)) &&
            (o.err != None ==> o.items == items)
  {
  }

  /** A file renamed to a free name succeeds exactly when the new name's parent
      is a directory, and then only re-keys that one entry. */
  lemma RenameFileToFreeName(items: Items, from: string, to: string)
    requires from != "" && to != "" && Key(from) in items && items[Key(from)].File?
    requires Key(to) !in items
    ensures var o := RenameOutcome(items, from, to);
            (o.err == None <==> ParentIsDir(items, to)) &&
            (o.err == None ==> o.items == (items - {Key(from)})[Key(to) := items[Key(from)]]) &&
            (o.err == None ==> Lookup(o.items, to) == Lookup(items, from) && Lookup(o.items, from).None?) &&
            (o.err != None ==> o.items == items)
  {
  }

  class Disk {
    var items: Items
    /** Every rename call made, in order. */
    ghost var renames: seq<(string, string)>

    constructor (items: Items)
      ensures this.items == items && renames == []
    {
      this.items := items;
      renames := [];
    }

    method Stat(path: string) returns (info: Option<Entry>, err: Option<Error>)
      ensures info == Lookup(items, path)
      ensures err == if info.None? then Some(PathError("stat", path, NotExist)) else None
    {
      info := Lookup(items, path);
      err := if info.None? then Some(PathError("stat", path, NotExist)) else None;
    }

    method Mkdir(path: string) returns (err: Option<Error>)
      modifies this
      ensures Outcome(err, items) == MkdirOutcome(old(items), path)
      ensures renames == old(renames)
    {
      var o := MkdirOutcome(items, path);
      err, items := o.err, o.items;
    }

    method MkdirAll(path: string) returns (err: Option<Error>)
      modifies this
      ensures Outcome(err, items) == MkdirAllOutcome(old(items), path)
      ensures renames == old(renames)
    {
      var o := MkdirAllOutcome(items, path);
      err, items := o.err, o.items;
    }

    method WriteFile(path: string, data: seq<bv8>) returns (err: Option<Error>)
      modifies this
      ensures Outcome(err, items) == WriteOutcome(old(items), path, data)
      ensures renames == old(renames)
    {
      var o := WriteOutcome(items, path, data);
      err, items := o.err, o.items;
    }

    method Remove(path: string) returns (err: Option<Error>)
      modifies this
      ensures Outcome(err, items) == RemoveOutcome(old(items), path)
      ensures renames == old(renames)
    {
      var o := RemoveOutcome(items, path);
      err, items := o.err, o.items;
    }

    method RemoveAll(path: string) returns (err: Option<Error>)
      modifies this
      ensures Outcome(err, items) == RemoveAllOutcome(old(items), path)
      ensures renames == old(renames)
    {
      var o := RemoveAllOutcome(items, path);
      err, items := o.err, o.items;
    }

    method Rename(from: string, to: string) returns (err: Option<Error>)
      modifies this
      ensures Outcome(err, items) == RenameOutcome(old(items), from, to)
      ensures renames == old(renames) + [(from, to)]
    {
      var o := RenameOutcome(items, from, to);
      err, items := o.err, o.items;
      renames := renames + [(from, to)];
    }
  }
}

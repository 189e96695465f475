/** The existence queries of the relative file system (fs-relative.go:69-71,
    143-168): a root-relative name is looked up by `os.Stat` on the root and the
    name joined with '/'. */
module ExistsInFs {
  import opened Wrappers
  import opened Errors
  import opened OsDisk
  import RelativeCalc
  import Strings

  /** The path `os.Stat` receives for `name`. */
  function StatPath(root: string, name: string): string {
    RelativeCalc.Join([root, name])
  }

  /** The root and the name with one '/' between them. */
  lemma StatPathShape(root: string, name: string)
    ensures StatPath(root, name) == root + "/" + name
  {
    assert [root, name][1..] == [name];
    assert Strings.JoinWith([name], "/") == name;
  }

  predicate FileExists(root: string, items: Items, name: string) {
    FileAt(items, StatPath(root, name))
  }

  predicate DirectoryExists(root: string, items: Items, name: string) {
    DirAt(items, StatPath(root, name))
  }

  /** The way from the OS root to `name` runs through a file. */
  predicate ThroughFile(root: string, items: Items, name: string) {
    FileAncestor(items, Key(StatPath(root, name))).Some?
  }

  /** `Stat` succeeds. */
  predicate Exists(root: string, items: Items, name: string) {
    Lookup(items, StatPath(root, name)).Some?
  }

  /** A name is never both a file and a directory, and it exists exactly when it
      is one of the two. */
  lemma ExistsExclusive(root: string, items: Items, name: string)
    ensures !(FileExists(root, items, name) && DirectoryExists(root, items, name))
    ensures Exists(root, items, name) <==> FileExists(root, items, name) || DirectoryExists(root, items, name)
  {
  }

  /** `existsInFS`: a root and the storage it stats. */
  class ExistsInFS {
    const root: string
    const disk: Disk

    constructor (root: string, disk: Disk)
      ensures this.root == root && this.disk == disk
    {
      this.root := root;
      this.disk := disk;
    }

    /** `statFS.Stat`: `os.Stat` of the joined path. */
    method Stat(name: string) returns (info: Option<Entry>, err: Option<Error>)
      ensures info == Lookup(disk.items, StatPath(root, name))
      ensures err.None? <==> Exists(root, disk.items, name)
      ensures info.Some? ==> (info.value.Directory? <==> DirectoryExists(root, disk.items, name))
    {
      info, err := disk.Stat(StatPath(root, name));
    }
  }
}

/** base-op.go and the parts of fs-mover.go shared by the mover and the changer:
    the existence probe, the four-flag mask it feeds, and the plan a handler
    settles on (reject, do nothing, or one rename). */
module BaseOp {
  import opened Wrappers
  import opened Errors
  import opened OsDisk
  import opened ExistsInFs

  /** `bitmask` (fs-mover.go:16-21). */
  datatype Mask = Mask(fromExists: bool, toExists: bool, fromIsDir: bool, toIsDir: bool)

  /** `peek`: (exists, isDir). */
  function Peek(root: string, items: Items, name: string): (r: (bool, bool))
    ensures DirectoryExists(root, items, name) ==> r == (true, true)
    ensures FileExists(root, items, name) ==> r == (true, false)
    ensures !Exists(root, items, name) ==> r == (false, false)
    ensures r.1 ==> r.0
  {
    ExistsExclusive(root, items, name);
    if DirectoryExists(root, items, name) then (true, true)
    else if FileExists(root, items, name) then (true, false)
    else (false, false)
  }

  /** `query`: probe the source and the given destination. */
  function Query(root: string, items: Items, from: string, to: string): (m: Mask)
    ensures (m.fromExists, m.fromIsDir) == Peek(root, items, from)
    ensures (m.toExists, m.toIsDir) == Peek(root, items, to)
  {
    var (fromExists, fromIsDir) := Peek(root, items, from);
    var (toExists, toIsDir) := Peek(root, items, to);
    Mask(fromExists, toExists, fromIsDir, toIsDir)
  }

  /** What a handler does: fail with an error, succeed doing nothing, or return
      the result of one `os.Rename`. */
  datatype Plan = Reject(err: Error) | Skip | Rename(source: string, destination: string)

  /** The outcome of carrying a plan out on the storage. */
  function Apply(p: Plan, items: Items): Outcome {
    match p
    case Reject(e) => Outcome(Some(e), items)
    case Skip => Outcome(None, items)
    case Rename(s, d) => RenameOutcome(items, s, d)
  }

  /** The rename calls a plan makes. */
  function Calls(p: Plan): (r: seq<(string, string)>)
    ensures |r| <= 1
    ensures r != [] <==> p.Rename?
  {
    if p.Rename? then [(p.source, p.destination)] else []
  }

  /** The storage went from its old state to its new one by carrying out `p`,
      which answered `err`, and the rename log grew by the plan's calls. */
  twostate predicate Carried(disk: Disk, p: Plan, new err: Option<Error>)
    reads disk
  {
    Outcome(err, disk.items) == Apply(p, old(disk.items)) &&
    disk.renames == old(disk.renames) + Calls(p)
  }

  /** A rejected or skipped plan changes nothing. */
  lemma ApplyUnchanged(p: Plan, items: Items)
    requires !p.Rename?
    ensures Apply(p, items).items == items
    ensures Apply(p, items).err.Some? <==> p.Reject?
  {
  }
}

/** The in-memory storage shared by the test file systems (luna/mem-fs.go,
    test/luna/fs-mem.go, internal/laboratory/traverse-fs.go): an `fstest.MapFS`,
    a map from slash-separated name to file whose mode carries the directory bit.
    The functions here state what each of their operations answers and leaves
    behind; the classes in modules LunaMemFs, TestLunaMemFs and Laboratory carry
    them out. */
module MapFs {
  import opened Wrappers
  import opened Errors
  import opened Strings
  import GoPath

  /** `fs.FileMode`, with `fs.ModeDir` its top bit. */
  type FileMode = bv32

  const ModeDir: FileMode := 0x8000_0000

  /** `lab.Perms`: 0o666 for files, 0o777 for directories. */
  const PermsFile: FileMode := 0x1B6
  const PermsDir: FileMode := 0x1FF

  predicate IsDir(mode: FileMode) {
    mode & ModeDir != 0
  }

  /** `fstest.MapFile`. */
  datatype MapFile = MapFile(data: seq<bv8>, mode: FileMode)

  type Files = map<string, MapFile>

  /** The entry a directory is made with: the permission bits and the directory bit. */
  function DirEntry(perm: FileMode): (f: MapFile)
    ensures IsDir(f.mode) && f.data == []
    ensures f.mode & 0x1FF == perm & 0x1FF
  {
    MapFile([], perm | ModeDir)
  }

  /** `FileExists` and `DirectoryExists` look the name up as a key; unlike `Stat`
      they see no implicit parent directory. */
  predicate FileExists(files: Files, name: string) {
    name in files && !IsDir(files[name].mode)
  }

  predicate DirectoryExists(files: Files, name: string) {
    name in files && IsDir(files[name].mode)
  }

  /** `fstest.MapFS.Stat` succeeds: a valid name that is ".", a key, or the
      parent of some key. */
  predicate StatFinds(files: Files, name: string) {
    GoPath.ValidPath(name) &&
    (name == "." || name in files || exists k :: k in files && HasPrefix(k, name + "/"))
  }

  datatype Outcome = Outcome(err: Option<Error>, files: Files)

  /** `Create` and `WriteFile`: refuse a name `Stat` finds, else add one entry. */
  function AddOutcome(files: Files, name: string, entry: MapFile): Outcome {
    if StatFinds(files, name) then Outcome(Some(Bare(Exist)), files)
    else Outcome(None, files[name := entry])
  }

  function MakeDirOutcome(files: Files, name: string, perm: FileMode): Outcome {
    if !GoPath.ValidPath(name) then Outcome(Some(NewInvalidPathError(name)), files)
    else if name in files then Outcome(None, files)
    else Outcome(None, files[name := DirEntry(perm)])
  }

  /** The first `i + 1` segments joined again: the `i`-th prefix `MakeDirAll` visits. */
  function Prefix(segments: seq<string>, i: nat): string
    requires i < |segments|
  {
    JoinWith(segments[..i + 1], "/")
  }

  /** The storage after `MakeDirAll` has visited the first `i` prefixes: each one
      that is not a key yet becomes a directory. */
  function AddDirs(files: Files, segments: seq<string>, i: nat, perm: FileMode): Files
    requires i <= |segments|
  {
    if i == 0 then files
    else
      var before := AddDirs(files, segments, i - 1, perm);
      var path := Prefix(segments, i - 1);
      if path in before then before else before[path := DirEntry(perm)]
  }

  function MakeDirAllOutcome(files: Files, name: string, perm: FileMode): Outcome {
    if !GoPath.ValidPath(name) then Outcome(Some(NewInvalidPathError(name)), files)
    else
      var segments := SplitOn(name, '/');
      Outcome(None, AddDirs(files, segments, |segments|, perm))
  }

  function RemoveOutcome(files: Files, name: string): Outcome {
    if name in files then Outcome(None, files - {name})
    else Outcome(Some(Bare(NotExist)), files)
  }

  /** The keys `RemoveAll` matches: those with `path` as a string prefix. */
  function Matched(files: Files, path: string): (r: set<string>)
    ensures forall k :: k in r <==> k in files && HasPrefix(k, path)
  {
    set k | k in files && HasPrefix(k, path)
  }

  function RemoveAllOutcome(files: Files, path: string): Outcome {
    var matched := Matched(files, path);
    if matched == {} then Outcome(Some(Bare(NotExist)), files)
    else Outcome(None, files - matched)
  }

  function RenameOutcome(files: Files, from: string, to: string): Outcome {
    if from in files then Outcome(None, (files - {from})[to := files[from]])
    else Outcome(Some(Bare(NotExist)), files)
  }

  /** The two existence queries never hold together. */
  lemma ExistsExclusive(files: Files, name: string)
    ensures !(FileExists(files, name) && DirectoryExists(files, name))
    ensures FileExists(files, name) || DirectoryExists(files, name) <==> name in files
  {
  }

  /** An implicit directory (the parent of a key that is not a key itself) is not
      a directory to `DirectoryExists`, yet `Create` and `WriteFile` refuse it. */
  lemma ImplicitDirectory(files: Files, name: string, child: string, entry: MapFile)
    requires GoPath.ValidPath(name) && name !in files
    requires child in files && HasPrefix(child, name + "/")
    ensures !DirectoryExists(files, name) && !FileExists(files, name)
    ensures AddOutcome(files, name, entry) == Outcome(Some(Bare(Exist)), files)
  {
  }

  /** `Create`/`WriteFile`: refused without change exactly when `Stat` finds the
      name; otherwise exactly one entry is added and every other key kept. */
  lemma AddEffect(files: Files, name: string, entry: MapFile)
    ensures var o := AddOutcome(files, name, entry);
            (o.err == None <==> !StatFinds(files, name)) &&
            (o.err != None ==> o.files == files) &&
            (o.err == None ==> o.files.Keys == files.Keys + {name} && o.files[name] == entry &&
                               (GoPath.ValidPath(name) ==> name !in files) &&
                               forall k :: k in files && k != name ==> o.files[k] == files[k])
  {
  }

  /** `MakeDir` rejects an invalid name and never replaces an existing key. */
  lemma MakeDirEffect(files: Files, name: string, perm: FileMode)
    ensures var o := MakeDirOutcome(files, name, perm);
            (!GoPath.ValidPath(name) ==> IsInvalidPathError(o.err) && o.files == files) &&
            (name in files ==> o.files == files) &&
            (GoPath.ValidPath(name) ==>
               o.err == None && name in o.files &&
               (name !in files ==> DirectoryExists(o.files, name) && o.files == files[name := DirEntry(perm)]))
  {
  }

  /** Visiting prefixes never changes a key already present. */
  lemma {:induction false} AddDirsKeeps(files: Files, segments: seq<string>, i: nat, perm: FileMode)
    requires i <= |segments|
    ensures var r := AddDirs(files, segments, i, perm);
            forall k :: k in files ==> k in r && r[k] == files[k]
  {
    if i > 0 {
      AddDirsKeeps(files, segments, i - 1, perm);
    }
  }

  /** Every visited prefix is a key afterwards. */
  lemma {:induction false} AddDirsVisited(files: Files, segments: seq<string>, i: nat, perm: FileMode)
    requires i <= |segments|
    ensures var r := AddDirs(files, segments, i, perm);
            forall j :: 0 <= j < i ==> Prefix(segments, j) in r
  {
    if i > 0 {
      AddDirsVisited(files, segments, i - 1, perm);
    }
  }

  /** Every key that was not there before is a directory at a visited prefix. */
  lemma {:induction false} AddDirsNew(files: Files, segments: seq<string>, i: nat, perm: FileMode)
    requires i <= |segments|
    ensures var r := AddDirs(files, segments, i, perm);
            forall k :: k in r && k !in files ==>
              r[k] == DirEntry(perm) && exists j :: 0 <= j < i && k == Prefix(segments, j)
  {
    if i > 0 {
      AddDirsNew(files, segments, i - 1, perm);
      var before := AddDirs(files, segments, i - 1, perm);
      var path := Prefix(segments, i - 1);
      var r := AddDirs(files, segments, i, perm);
      assert r == if path in before then before else before[path := DirEntry(perm)];
      forall k | k in r && k !in files
        ensures r[k] == DirEntry(perm) && exists j :: 0 <= j < i && k == Prefix(segments, j)
      {
        if k in before {
          var j :| 0 <= j < i - 1 && k == Prefix(segments, j);
        } else {
          assert k == path;
        }
      }
    }
  }

  /** What the first `i` visits of `MakeDirAll` do: keys already present keep
      their entries, every visited prefix is a key, and every new key is a
      directory at one of the visited prefixes. */
  lemma AddDirsEffect(files: Files, segments: seq<string>, i: nat, perm: FileMode)
    requires i <= |segments|
    ensures var r := AddDirs(files, segments, i, perm);
            (forall k :: k in files ==> k in r && r[k] == files[k]) &&
            (forall j :: 0 <= j < i ==> Prefix(segments, j) in r) &&
            (forall k :: k in r && k !in files ==>
               r[k] == DirEntry(perm) && exists j :: 0 <= j < i && k == Prefix(segments, j))
  {
    AddDirsKeeps(files, segments, i, perm);
    AddDirsVisited(files, segments, i, perm);
    AddDirsNew(files, segments, i, perm);
  }

  /** `MakeDirAll` on a valid name: no error, every '/'-prefix of the name is a
      key (the name itself included), keys already present are untouched, and
      everything added is a directory at one of those prefixes. */
  lemma MakeDirAllEffect(files: Files, name: string, perm: FileMode)
    ensures !GoPath.ValidPath(name) ==>
              MakeDirAllOutcome(files, name, perm) == Outcome(Some(InvalidPath(name)), files)
    ensures GoPath.ValidPath(name) ==>
              var segments := SplitOn(name, '/');
              var o := MakeDirAllOutcome(files, name, perm);
              o.err == None &&
              name in o.files && (name !in files ==> DirectoryExists(o.files, name)) &&
              (forall j :: 0 <= j < |segments| ==> Prefix(segments, j) in o.files) &&
              (forall k :: k in files ==> k in o.files && o.files[k] == files[k]) &&
              (forall k :: k in o.files && k !in files ==>
                 DirectoryExists(o.files, k) && exists j :: 0 <= j < |segments| && k == Prefix(segments, j))
  {
    if GoPath.ValidPath(name) {
      var segments := SplitOn(name, '/');
      AddDirsEffect(files, segments, |segments|, perm);
      assert segments[..|segments|] == segments;
      JoinSplit(name, '/');
      assert Prefix(segments, |segments| - 1) == name;
    }
  }

  /** `Remove` deletes exactly the one key, or fails with `ErrNotExist` and
      changes nothing. */
  lemma RemoveEffect(files: Files, name: string)
    ensures var o := RemoveOutcome(files, name);
            (o.err == None <==> name in files) &&
            (o.err != None ==> o.files == files && Is(o.err, NotExist)) &&
            (o.err == None ==> o.files.Keys == files.Keys - {name} &&
                               forall k :: k in o.files ==> o.files[k] == files[k])
  {
  }

  /** `RemoveAll` keeps exactly the keys without `path` as a string prefix, and
      fails with `ErrNotExist` exactly when no key has it. The prefix is raw text:
      removing "a" also removes a sibling "ab". */
  lemma RemoveAllEffect(files: Files, path: string)
    ensures var o := RemoveAllOutcome(files, path);
            (o.err == None <==> exists k :: k in files && HasPrefix(k, path)) &&
            (o.err != None ==> o.files == files && Is(o.err, NotExist)) &&
            (o.err == None ==> (forall k :: k in o.files <==> k in files && !HasPrefix(k, path)) &&
                               forall k :: k in o.files ==> o.files[k] == files[k])
  {
    var matched := Matched(files, path);
    if exists k :: k in files && HasPrefix(k, path) {
      var k :| k in files && HasPrefix(k, path);
      assert k in matched;
    }
  }

  lemma RemoveAllSibling(files: Files)
    requires "ab" in files
    ensures "ab" !in RemoveAllOutcome(files, "a").files
  {
    assert HasPrefix("ab", "a");
    assert "ab" in Matched(files, "a");
  }

  /** `Rename` with a present source moves its entry to the destination,
      replacing whatever was there, and keeps every other key; with an absent
      source it fails with `ErrNotExist` and changes nothing. */
  lemma RenameEffect(files: Files, from: string, to: string)
    ensures var o := RenameOutcome(files, from, to);
            (from !in files ==> o.files == files && Is(o.err, NotExist)) &&
            (from in files ==>
               o.err == None && to in o.files && o.files[to] == files[from] &&
               (from != to ==> from !in o.files) &&
               forall k :: k != from && k != to ==>
                 (k in o.files <==> k in files) && (k in files ==> o.files[k] == files[k]))
  {
  }

  /** Renaming there and back restores the storage when the destination was free. */
  lemma RenameBack(files: Files, from: string, to: string)
    requires from in files && to !in files
    ensures var there := RenameOutcome(files, from, to);
            RenameOutcome(there.files, to, from) == Outcome(None, files)
  {
    var there := RenameOutcome(files, from, to).files;
    var back := RenameOutcome(there, to, from).files;
    assert back.Keys == files.Keys;
  }

  /** The `MakeDirAll` reduction: extend the accumulated segments by one, join
      them, and add a directory there unless the key exists. */
  method AddPrefixDirs(files: Files, name: string, perm: FileMode) returns (r: Files)
    ensures r == AddDirs(files, SplitOn(name, '/'), |SplitOn(name, '/')|, perm)
  {
    var segments := SplitOn(name, '/');
    var acc: seq<string> := [];
    r := files;
    var i := 0;
    while i < |segments|
      invariant 0 <= i <= |segments|
      invariant acc == segments[..i]
      invariant r == AddDirs(files, segments, i, perm)
    {
      acc := acc + [segments[i]];
      assert acc == segments[..i + 1];
      var path := JoinWith(acc, "/");
      if path !in r {
        r := r[path := DirEntry(perm)];
      }
      i := i + 1;
    }
  }

  /** The `RemoveAll` deletion loop over the matched keys. */
  method DeleteKeys(files: Files, keys: set<string>) returns (r: Files)
    ensures r == files - keys
  {
    r := files;
    var rest := keys;
    while rest != {}
      invariant rest <= keys
      invariant r == files - (keys - rest)
      decreases |rest|
    {
      var k :| k in rest;
      r := r - {k};
      rest := rest - {k};
      assert r == files - (keys - rest);
    }
  }
}

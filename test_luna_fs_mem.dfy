/** test/luna/fs-mem.go: the test `MemFS` over an `fstest.MapFS`, whose `Create`
    hands back a `FileAdapter`, a byte buffer with a read/write cursor. */
module TestLunaMemFs {
  import opened Wrappers
  import opened Errors
  import opened MapFs
  import GoPath
  import FsRelative

  /** `FileInfoAdapter`: what `FileAdapter.Stat` reports. */
  datatype FileInfo = FileInfo(name: string, size: nat, dir: bool, mode: FileMode)

  function Min(a: nat, b: nat): nat {
    if a < b then a else b
  }

  /** The buffer and cursor after writing `p`: everything from the cursor on is
      replaced by `p`, and the cursor moves to the new end. */
  function Written(data: seq<bv8>, pos: nat, p: seq<bv8>): (r: (seq<bv8>, nat))
    requires pos <= |data|
    ensures r.1 == |r.0| == pos + |p|
    ensures r.0[..pos] == data[..pos] && r.0[pos..] == p
  {
    (data[..pos] + p, pos + |p|)
  }

  /** How many bytes a read into room for `room` bytes copies: none at the end of
      the buffer, else as many as fit and remain. */
  function ReadCount(data: seq<bv8>, pos: nat, room: nat): (n: nat)
    ensures pos + n <= |data| || n == 0
    ensures n <= room
    ensures pos < |data| && room > 0 ==> n > 0
  {
    if pos >= |data| then 0 else Min(room, |data| - pos)
  }

  /** Two writes in a row are one write of both. */
  lemma WriteTwice(data: seq<bv8>, pos: nat, p: seq<bv8>, q: seq<bv8>)
    requires pos <= |data|
    ensures var (d1, pos1) := Written(data, pos, p);
            Written(d1, pos1, q) == Written(data, pos, p + q)
  {
    var (d1, pos1) := Written(data, pos, p);
    assert d1[..pos1] == d1 == data[..pos] + p;
    assert d1 + q == data[..pos] + (p + q);
  }

  /** After a write the cursor is at the end: the next read finds nothing. */
  lemma ReadAfterWrite(data: seq<bv8>, pos: nat, p: seq<bv8>, room: nat)
    requires pos <= |data|
    ensures var (d, q) := Written(data, pos, p);
            ReadCount(d, q, room) == 0
  {
  }

  /** Reading in two steps covers the same bytes as one read with room for both. */
  lemma ReadSplits(data: seq<bv8>, pos: nat, a: nat, b: nat)
    requires pos <= |data|
    ensures var n := ReadCount(data, pos, a);
            n + ReadCount(data, pos + n, b) == ReadCount(data, pos, a + b)
  {
  }

  /** `FileAdapter`: the cursor never passes the end of the data. */
  class FileAdapter {
    const name: string
    var data: seq<bv8>
    var pos: nat

    ghost predicate Valid()
      reads this
    {
      pos <= |data|
    }

    constructor (name: string)
      ensures this.name == name && data == [] && pos == 0 && Valid()
    {
      this.name := name;
      data := [];
      pos := 0;
    }

    /** `Read`: `io.EOF` at the end; otherwise copy into `p` as many bytes as fit
        and remain, and advance the cursor past them. */
    method Read(p: array<bv8>) returns (n: nat, err: Option<Error>)
      requires Valid()
      modifies this, p
      ensures Valid() && data == old(data)
      ensures n == ReadCount(data, old(pos), p.Length) && pos == old(pos) + n
      ensures err == if old(pos) >= |data| then Some(Bare(EOF)) else None
      ensures p[..n] == data[old(pos)..pos] && p[n..] == old(p[n..])
    {
      if pos >= |data| {
        return 0, Some(Bare(EOF));
      }
      n := Min(p.Length, |data| - pos);
      var i := 0;
      while i < n
        modifies p
        invariant 0 <= i <= n
        invariant p[..i] == data[pos..pos + i]
        invariant p[i..] == old(p[i..])
      {
        p[i] := data[pos + i];
        i := i + 1;
      }
      pos := pos + n;
      err := None;
    }

    /** `Write`: replace everything from the cursor on with `p`. */
    method Write(p: seq<bv8>) returns (n: nat, err: Option<Error>)
      requires Valid()
      modifies this
      ensures Valid()
      ensures (data, pos) == Written(old(data), old(pos), p)
      ensures n == |p| && err == None
    {
      data := data[..pos] + p;
      n := |p|;
      pos := pos + n;
      err := None;
    }

    method Stat() returns (info: FileInfo, err: Option<Error>)
      ensures info == FileInfo(name, |data|, false, PermsFile) && err == None
    {
      info := FileInfo(name, |data|, false, PermsFile);
      err := None;
    }
  }

  class MemFS {
    var files: Files

    constructor ()
      ensures files == map[]
    {
      files := map[];
    }

    method FileExists(name: string) returns (b: bool)
      ensures b <==> MapFs.FileExists(files, name)
    {
      b := name in files && !IsDir(files[name].mode);
    }

    method DirectoryExists(name: string) returns (b: bool)
      ensures b <==> MapFs.DirectoryExists(files, name)
    {
      b := name in files && IsDir(files[name].mode);
    }

    /** `Create`: a new adapter, its (empty) data stored under the name with no
        mode bits, so it counts as a file. */
    method Create(name: string) returns (adapter: FileAdapter?, err: Option<Error>)
      modifies this
      ensures Outcome(err, files) == AddOutcome(old(files), name, MapFile([], 0))
      ensures err == None <==> adapter != null
      ensures adapter != null ==>
                fresh(adapter) && adapter.Valid() && adapter.name == name && adapter.pos == 0 &&
                files[name].data == adapter.data
    {
      if StatFinds(files, name) {
        return null, Some(Bare(Exist));
      }
      adapter := new FileAdapter(name);
      files := files[name := MapFile(adapter.data, 0)];
      err := None;
    }

    method MakeDir(name: string, perm: FileMode) returns (err: Option<Error>)
      modifies this
      ensures Outcome(err, files) == MakeDirOutcome(old(files), name, perm)
    {
      if !GoPath.ValidPath(name) {
        return Some(NewInvalidPathError(name));
      }
      if name !in files {
        files := files[name := DirEntry(perm)];
      }
      err := None;
    }

    method MakeDirAll(name: string, perm: FileMode) returns (err: Option<Error>)
      modifies this
      ensures Outcome(err, files) == MakeDirAllOutcome(old(files), name, perm)
    {
      if !GoPath.ValidPath(name) {
        return Some(NewInvalidPathError(name));
      }
      files := AddPrefixDirs(files, name, perm);
      err := None;
    }

    /** `Ensure`, `Move`, `Change`, `Copy` and `CopyFS` are not implemented: they
        succeed and do nothing. */
    method Ensure(pathAs: FsRelative.PathAs) returns (at: string, err: Option<Error>)
      ensures at == "" && err == None
    {
      at, err := "", None;
    }

    method Move(from: string, to: string) returns (err: Option<Error>)
      ensures err == None
    {
      err := None;
    }

    method Change(from: string, to: string) returns (err: Option<Error>)
      ensures err == None
    {
      err := None;
    }

    method Copy(from: string, to: string) returns (err: Option<Error>)
      ensures err == None
    {
      err := None;
    }

    method CopyFS(dir: string) returns (err: Option<Error>)
      ensures err == None
    {
      err := None;
    }

    method Remove(name: string) returns (err: Option<Error>)
      modifies this
      ensures Outcome(err, files) == RemoveOutcome(old(files), name)
    {
      if name in files {
        files := files - {name};
        return None;
      }
      err := Some(Bare(NotExist));
    }

    method RemoveAll(path: string) returns (err: Option<Error>)
      modifies this
      ensures Outcome(err, files) == RemoveAllOutcome(old(files), path)
    {
      var matched := Matched(files, path);
      if matched == {} {
        return Some(Bare(NotExist));
      }
      files := DeleteKeys(files, matched);
      err := None;
    }

    method Rename(from: string, to: string) returns (err: Option<Error>)
      modifies this
      ensures Outcome(err, files) == RenameOutcome(old(files), from, to)
    {
      if from in files {
        var item := files[from];
        files := files - {from};
        files := files[to := item];
        return None;
      }
      err := Some(Bare(NotExist));
    }

    method WriteFile(name: string, data: seq<bv8>, perm: FileMode) returns (err: Option<Error>)
      modifies this
      ensures Outcome(err, files) == AddOutcome(old(files), name, MapFile(data, perm))
    {
      if StatFinds(files, name) {
        return Some(Bare(Exist));
      }
      files := files[name := MapFile(data, perm)];
      err := None;
    }
  }
}

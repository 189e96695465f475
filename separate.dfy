/** separate.go: split directory entries into files and folders, each group in
    the order the entries came. */
module Separate {
  /** The part of `fs.DirEntry` the split looks at. */
  datatype DirEntry = DirEntry(name: string, isDir: bool)

  /** `Separate`: (files, folders). Grouping appends each entry to its group in
      turn, so this is defined on the last entry. */
  function Separate(entries: seq<DirEntry>): (r: (seq<DirEntry>, seq<DirEntry>))
    ensures forall i :: 0 <= i < |r.0| ==> !r.0[i].isDir
    ensures forall i :: 0 <= i < |r.1| ==> r.1[i].isDir
    ensures |r.0| + |r.1| == |entries|
  {
    if entries == [] then ([], [])
    else
      var last := entries[|entries| - 1];
      var (files, folders) := Separate(entries[..|entries| - 1]);
      assert entries == entries[..|entries| - 1] + [last];
      if last.isDir then (files, folders + [last]) else (files + [last], folders)
  }

  /** Together the groups hold exactly the entries: none lost, none repeated. */
  lemma {:induction false} SeparatePermutes(entries: seq<DirEntry>)
    ensures multiset(Separate(entries).0) + multiset(Separate(entries).1) == multiset(entries)
    decreases |entries|
  {
    if entries != [] {
      var init, last := entries[..|entries| - 1], entries[|entries| - 1];
      assert entries == init + [last];
      SeparatePermutes(init);
      SeparateSnoc(init, last);
    }
  }

  /** One more entry lands at the end of its own group. */
  lemma SeparateSnoc(xs: seq<DirEntry>, e: DirEntry)
    ensures Separate(xs + [e]) ==
            if e.isDir then (Separate(xs).0, Separate(xs).1 + [e])
            else (Separate(xs).0 + [e], Separate(xs).1)
  {
    assert (xs + [e])[..|xs + [e]| - 1] == xs;
  }

  /** Separating a concatenation separates each part and concatenates the
      groups: the relative order of entries within a group is kept. */
  lemma {:induction false} SeparateConcat(a: seq<DirEntry>, b: seq<DirEntry>)
    ensures Separate(a + b).0 == Separate(a).0 + Separate(b).0
    ensures Separate(a + b).1 == Separate(a).1 + Separate(b).1
    decreases |b|
  {
    if b == [] {
      assert a + b == a;
    } else {
      var init, last := b[..|b| - 1], b[|b| - 1];
      assert b == init + [last];
      assert a + b == (a + init) + [last];
      SeparateConcat(a, init);
      SeparateSnoc(a + init, last);
      SeparateSnoc(init, last);
    }
  }

  /** Only files: every entry is a file and there are no folders; only folders:
      the other way round. Either group is empty, never absent. */
  lemma {:induction false} AllFiles(entries: seq<DirEntry>)
    requires forall i :: 0 <= i < |entries| ==> !entries[i].isDir
    ensures Separate(entries) == (entries, [])
    decreases |entries|
  {
    if entries != [] {
      AllFiles(entries[..|entries| - 1]);
      assert entries == entries[..|entries| - 1] + [entries[|entries| - 1]];
    }
  }

  lemma {:induction false} AllFolders(entries: seq<DirEntry>)
    requires forall i :: 0 <= i < |entries| ==> entries[i].isDir
    ensures Separate(entries) == ([], entries)
    decreases |entries|
  {
    if entries != [] {
      AllFolders(entries[..|entries| - 1]);
      assert entries == entries[..|entries| - 1] + [entries[|entries| - 1]];
    }
  }

  /** An entry is in the group its kind says, and in that group only. */
  lemma EntryPlacement(entries: seq<DirEntry>, e: DirEntry)
    requires e in entries
    ensures e.isDir ==> e in Separate(entries).1 && e !in Separate(entries).0
    ensures !e.isDir ==> e in Separate(entries).0 && e !in Separate(entries).1
  {
    var r := Separate(entries);
    SeparatePermutes(entries);
    assert e in multiset(entries);
    assert e in multiset(r.0) + multiset(r.1);
    if e in r.0 {
      var i :| 0 <= i < |r.0| && r.0[i] == e;
    }
    if e in r.1 {
      var i :| 0 <= i < |r.1| && r.1[i] == e;
    }
  }
}

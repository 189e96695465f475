/** `RelativeCalc` from path-calc.go: path arithmetic over the root-relative,
    '/'-only path space. The `Root` field of the Go struct never takes part in
    the arithmetic, so these are plain functions. */
module RelativeCalc {
  import opened Strings
  import GoPath

  const Separator: char := '/'

  /** The last element: "." for "", the path itself when it has no separator,
      otherwise the text after the last separator. */
  function Base(path: string): (r: string)
    ensures path == "" ==> r == "."
    ensures path != "" && Separator !in path ==> r == path
    ensures Separator !in r
    ensures Separator in path ==> HasSuffix(path, [Separator] + r)
  {
    if path == "" then "."
    else if Separator !in path then path
    else
      var i := LastIndexOf(path, Separator);
      assert path[i..] == [Separator] + path[i + 1..];
      path[i + 1..]
  }

  /** `filepath.Clean`, then a lone "/" becomes "." and one leading separator is dropped. */
  function Clean(path: string): (r: string)
    ensures r != "" && r[0] != Separator
    ensures path == [Separator] ==> r == "."
    ensures GoPath.Clean(path) == [Separator] ==> r == "."
    ensures GoPath.Clean(path) != [Separator] ==>
              r == GoPath.Clean(path) || [Separator] + r == GoPath.Clean(path)
  {
    var clean := GoPath.Clean(path);
    CleanShape(path);
    if clean == [Separator] then "."
    else if HasPrefix(clean, [Separator]) then clean[1..]
    else clean
  }

  /** A cleaned path starts with at most one separator. */
  lemma CleanShape(path: string)
    ensures var c := GoPath.Clean(path);
            c != "" && (c[0] == Separator && |c| > 1 ==> c[1] != Separator)
    ensures path == [Separator] ==> GoPath.Clean(path) == [Separator]
  {
    if path == [Separator] {
      assert SplitOn(path, Separator) == ["", ""] by {
        assert path[1..] == "";
      }
      assert ["", ""][1..] == [""];
      assert GoPath.Fold([], ["", ""], true) == GoPath.Fold([], [""], true) == [];
    }
  }

  /** `strings.Split` on the separator, except that "" has no elements. */
  function Elements(path: string): (r: seq<string>)
    ensures path == "" <==> r == []
    ensures forall i :: 0 <= i < |r| ==> Separator !in r[i]
  {
    if path == "" then [] else SplitOn(path, Separator)
  }

  /** Everything before the last separator; "." for "" or a single element. */
  function Dir(path: string): (r: string)
    ensures path == "" || Separator !in path ==> r == "."
    ensures Separator in path ==>
              |r| < |path| && HasPrefix(path, r + [Separator]) && Separator !in path[|r| + 1..]
  {
    if path == "" then "."
    else if Separator !in path then "."
    else
      var i := LastIndexOf(path, Separator);
      assert path[..i + 1] == path[..i] + [Separator];
      path[..i]
  }

  /** `strings.Join` with the separator only; no elements give "". */
  function Join(elements: seq<string>): (r: string)
    ensures elements == [] ==> r == ""
    ensures elements != [] ==> HasPrefix(r, elements[0])
  {
    if elements == [] then ""
    else
      JoinWithStartsWith(elements, [Separator]);
      JoinWith(elements, [Separator])
  }

  /** ("", "") for "", ("", path) for a single element, else (Dir, Base), which
      put back together with the separator give the path again. */
  function Split(path: string): (r: (string, string))
    ensures path == "" ==> r == ("", "")
    ensures path != "" && Separator !in path ==> r == ("", path)
    ensures Separator in path ==> r == (Dir(path), Base(path)) && r.0 + [Separator] + r.1 == path
  {
    if path == "" then ("", "")
    else if Separator !in path then ("", path)
    else
      var i := LastIndexOf(path, Separator);
      assert path == path[..i] + [Separator] + path[i + 1..];
      (Dir(path), Base(path))
  }

  /** "." for ""; a path not ending in the separator unchanged; otherwise the
      one trailing separator removed. */
  function Truncate(path: string): (r: string)
    ensures path == "" ==> r == "."
    ensures path != "" && !HasSuffix(path, [Separator]) ==> r == path
    ensures path != "" && HasSuffix(path, [Separator]) ==> r + [Separator] == path
  {
    if path == "" then "."
    else if !HasSuffix(path, [Separator]) then path
    else
      assert path[|path| - 1] == Separator;
      var r := path[..LastIndexOf(path, Separator)];
      assert r + [Separator] == path;
      r
  }

  /** Joining the elements of any path gives the path back. */
  lemma JoinElements(path: string)
    ensures Join(Elements(path)) == path
  {
    if path != "" {
      JoinSplit(path, Separator);
    }
  }

  /** Splitting a join gives the elements back, provided none holds the separator
      and the list is not the single empty element (which joins to "", whose
      elements are []). */
  lemma ElementsJoin(xs: seq<string>)
    requires forall i :: 0 <= i < |xs| ==> Separator !in xs[i]
    requires xs != [""]
    ensures Elements(Join(xs)) == xs
  {
    if xs != [] {
      JoinWithFree(xs, Separator);
      if |xs| == 1 {
        assert Join(xs) == xs[0] != "";
      } else {
        assert Join(xs) != "";
      }
      SplitJoin(xs, Separator);
    }
  }

  /** Dir and Base put back together rebuild any path that has a separator. */
  lemma DirBase(path: string)
    requires Separator in path
    ensures Join([Dir(path), Base(path)]) == path
  {
    assert [Dir(path), Base(path)][1..] == [Base(path)];
    assert JoinWith([Base(path)], [Separator]) == Base(path);
    assert Split(path) == (Dir(path), Base(path));
  }

  /** A valid `io/fs` path is already clean. */
  lemma CleanValid(name: string)
    requires GoPath.ValidPath(name)
    ensures Clean(name) == name
    ensures GoPath.Clean(name) == name
  {
    if name == "." {
      GoPath.CleanDot();
    } else {
      var parts := SplitOn(name, Separator);
      assert parts[0] in parts;
      assert parts[0] != "";
      assert name != "" && name[0] != Separator;
      assert GoPath.Normal(parts, false) by {
        forall i | 0 <= i < |parts| ensures parts[i] != "" && parts[i] != "." && parts[i] != ".." {
          assert parts[i] in parts;
        }
      }
      GoPath.FoldIdentity([], parts, false);
      assert [] + parts == parts;
      JoinSplit(name, Separator);
    }
  }
}

/** `AbsoluteCalc` from path-calc.go: the native variant. Its Base, Clean, Dir,
    Join and Split are the platform's `filepath` functions; Truncate and Elements
    are its own code over the platform separator `sep`. */
module AbsoluteCalc {
  import opened Strings
  import GoPath
  import RelativeCalc

  function Base(path: string): string { GoPath.Base(path) }
  function Clean(path: string): string { GoPath.Clean(path) }
  function Dir(name: string): string { GoPath.Dir(name) }
  function Join(elements: seq<string>): string { GoPath.Join(elements) }
  function Split(path: string): (string, string) { GoPath.Split(path) }

  /** "." for ""; unchanged without a trailing separator; otherwise the trailing
      separator removed. */
  function Truncate(sep: char, path: string): (r: string)
    ensures path == "" ==> r == "."
    ensures path != "" && !HasSuffix(path, [sep]) ==> r == path
    ensures path != "" && HasSuffix(path, [sep]) ==> r + [sep] == path
  {
    if path == "" then "."
    else if !HasSuffix(path, [sep]) then path
    else
      assert path[|path| - 1] == sep;
      var r := path[..LastIndexOf(path, sep)];
      assert r + [sep] == path;
      r
  }

  /** `strings.Split` on the platform separator; "" has no elements. */
  function Elements(sep: char, path: string): (r: seq<string>)
    ensures path == "" <==> r == []
    ensures forall i :: 0 <= i < |r| ==> sep !in r[i]
  {
    if path == "" then [] else SplitOn(path, sep)
  }

  /** On a '/' platform the two calculators agree on Truncate and Elements. */
  lemma AgreesWithRelative(path: string)
    ensures Truncate('/', path) == RelativeCalc.Truncate(path)
    ensures Elements('/', path) == RelativeCalc.Elements(path)
  {
  }

  /** Unlike the relative calculator, joining no elements gives "" via
      `filepath.Join` too, and Clean keeps the root "/". */
  lemma RootAndEmpty()
    ensures Join([]) == ""
    ensures Clean("/") == "/"
    ensures RelativeCalc.Clean("/") == "."
  {
    RelativeCalc.CleanShape("/");
  }
}

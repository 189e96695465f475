/** fs-utils.go: `Parent` and `Join` for relative file systems, fixed to '/'
    whatever the platform. */
module FsUtils {
  import opened Strings
  import RelativeCalc

  const Delimiter: char := '/'

  /** All but the last element: "" when there is no delimiter, otherwise the
      strict prefix before the last delimiter. */
  function Parent(path: string): (r: string)
    ensures Delimiter !in path ==> r == ""
    ensures Delimiter in path ==>
              |r| < |path| && HasPrefix(path, r + [Delimiter]) && Delimiter !in path[|r| + 1..]
  {
    if Delimiter !in path then ""
    else
      var i := LastIndexOf(path, Delimiter);
      assert path[..i + 1] == path[..i] + [Delimiter];
      path[..i]
  }

  /** `strings.Join(segments, "/")`. */
  function Join(segments: seq<string>): (r: string)
    ensures segments == [] ==> r == ""
    ensures |segments| == 2 ==> r == segments[0] + [Delimiter] + segments[1]
  {
    if |segments| == 2 then
      assert segments[1..] == [segments[1]];
      assert JoinWith([segments[1]], [Delimiter]) == segments[1];
      JoinWith(segments, [Delimiter])
    else JoinWith(segments, [Delimiter])
  }

  /** An empty parent gives a leading delimiter. */
  lemma JoinEmptyParent(x: string)
    ensures Join(["", x]) == [Delimiter] + x
  {
  }

  /** Joining the parent with the text after the last delimiter rebuilds the path. */
  lemma ParentJoin(path: string)
    requires Delimiter in path
    ensures Join([Parent(path), path[|Parent(path)| + 1..]]) == path
  {
    var p := Parent(path);
    assert path == path[..|p| + 1] + path[|p| + 1..];
  }

  /** Parent and the calculator's Dir agree except on a path without delimiter,
      where Parent gives "" and Dir gives ".". */
  lemma ParentVersusDir(path: string)
    ensures Delimiter in path ==> Parent(path) == RelativeCalc.Dir(path)
    ensures Delimiter !in path ==> Parent(path) == "" && RelativeCalc.Dir(path) == "."
  {
  }
}

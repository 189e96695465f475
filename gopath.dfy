/** Go's `path/filepath` on a platform whose separator is '/', and `io/fs.ValidPath`.
    These are library functions the core calls; they are modelled here so that the
    core's own behaviour (which depends on their edge cases) can be stated exactly.
    `Clean` follows Go's lexical rules: repeated separators collapse, "." elements
    vanish, ".." removes the preceding element (or stays, for a relative path that
    has nothing left to remove), and the empty result is ".". */
module GoPath {
  import opened Strings

  const Separator: char := '/'

  /** `io/fs.ValidPath`: "." or '/'-separated elements none of which is "", "." or "..".
      The empty name is one empty element, and so is never valid. */
  predicate ValidPath(name: string)
    ensures ValidPath(name) ==> name != ""
  {
    name == "." ||
    (name != "" && forall e :: e in SplitOn(name, Separator) ==> e != "" && e != "." && e != "..")
  }

  /** The empty name is not valid: it splits into one empty element. */
  lemma EmptyInvalid()
    ensures !ValidPath("")
  {
    assert SplitOn("", Separator) == [""];
    assert "" in SplitOn("", Separator);
  }

  /** A name ending in the separator has an empty last element. */
  lemma TrailingInvalid(head: string)
    ensures !ValidPath(head + [Separator])
  {
    var name := head + [Separator];
    assert name == head + [Separator] + [];
    SplitOnConcat(head, [], Separator);
    assert SplitOn([], Separator) == [""];
    var parts := SplitOn(name, Separator);
    assert parts[|parts| - 1] == "";
    assert parts[|parts| - 1] in parts;
  }

  /** A name whose last element is "." is not valid. */
  lemma DotLastInvalid(head: string)
    ensures !ValidPath(head + [Separator] + ".")
  {
    SplitOnConcat(head, ".", Separator);
    SplitOnWithout(".", Separator);
    var parts := SplitOn(head + [Separator] + ".", Separator);
    assert parts[|parts| - 1] == ".";
    assert parts[|parts| - 1] in parts;
  }

  /** A name starting with the separator has an empty first element. */
  lemma LeadingInvalid(tail: string)
    ensures !ValidPath([Separator] + tail)
  {
    var parts := SplitOn([Separator] + tail, Separator);
    assert parts[0] == "";
    assert parts[0] in parts;
  }

  /** A valid name is non-empty and neither starts nor ends with the separator. */
  lemma ValidPathEnds(name: string)
    requires ValidPath(name)
    ensures name != "" && name[0] != Separator && name[|name| - 1] != Separator
  {
    EmptyInvalid();
    if name != "" {
      TrailingInvalid(name[..|name| - 1]);
      assert name[..|name| - 1] + [name[|name| - 1]] == name;
      LeadingInvalid(name[1..]);
      assert [name[0]] + name[1..] == name;
    }
  }

  /** One element of the lexical clean: the element stack after reading `e`. */
  function Step(stack: seq<string>, e: string, rooted: bool): seq<string> {
    if e == "" || e == "." then stack
    else if e == ".." then
      if |stack| > 0 && stack[|stack| - 1] != ".." then stack[..|stack| - 1]
      else if rooted then stack
      else stack + [".."]
    else stack + [e]
  }

  function Fold(stack: seq<string>, parts: seq<string>, rooted: bool): seq<string>
    decreases |parts|
  {
    if parts == [] then stack else Fold(Step(stack, parts[0], rooted), parts[1..], rooted)
  }

  function Render(stack: seq<string>, rooted: bool): string {
    var body := JoinWith(stack, [Separator]);
    if rooted then [Separator] + body
    else if body == "" then "."
    else body
  }

  /** A stack `Fold` can produce: no empty, "." or separator-holding element, and
      ".." only as a leading run of a relative path. */
  ghost predicate Normal(stack: seq<string>, rooted: bool) {
    forall i :: 0 <= i < |stack| ==>
      stack[i] != "" && stack[i] != "." && Separator !in stack[i] &&
      (stack[i] == ".." ==> !rooted && forall j :: 0 <= j < i ==> stack[j] == "..")
  }

  /** `filepath.Clean` */
  function Clean(path: string): (r: string)
    ensures r != ""
    ensures path == "" ==> r == "."
    ensures |r| > 1 && r[0] == Separator ==> r[1] != Separator
    ensures path != "" && path[0] == Separator ==> r[0] == Separator
  {
    if path == "" then "."
    else
      var rooted := path[0] == Separator;
      var stack := Fold([], SplitOn(path, Separator), rooted);
      FoldNormal([], SplitOn(path, Separator), rooted);
      RenderShape(stack, rooted);
      Render(stack, rooted)
  }

  lemma {:induction false} StepNormal(stack: seq<string>, e: string, rooted: bool)
    requires Normal(stack, rooted) && Separator !in e
    ensures Normal(Step(stack, e, rooted), rooted)
  {
  }

  lemma {:induction false} FoldNormal(stack: seq<string>, parts: seq<string>, rooted: bool)
    requires Normal(stack, rooted)
    requires forall i :: 0 <= i < |parts| ==> Separator !in parts[i]
    ensures Normal(Fold(stack, parts, rooted), rooted)
    decreases |parts|
  {
    if parts != [] {
      StepNormal(stack, parts[0], rooted);
      FoldNormal(Step(stack, parts[0], rooted), parts[1..], rooted);
    }
  }

  /** Folding an already normal sequence onto a stack just appends it. */
  lemma {:induction false} FoldIdentity(acc: seq<string>, s: seq<string>, rooted: bool)
    requires Normal(acc + s, rooted)
    ensures Fold(acc, s, rooted) == acc + s
    decreases |s|
  {
    if s != [] {
      assert (acc + s)[|acc|] == s[0];
      if s[0] == ".." && |acc| > 0 {
        assert (acc + s)[|acc| - 1] == acc[|acc| - 1];
      }
      assert Step(acc, s[0], rooted) == acc + [s[0]];
      assert (acc + [s[0]]) + s[1..] == acc + s;
      FoldIdentity(acc + [s[0]], s[1..], rooted);
    }
  }

  lemma {:induction false} RenderShape(stack: seq<string>, rooted: bool)
    requires Normal(stack, rooted)
    ensures Render(stack, rooted) != ""
    ensures stack != [] ==> JoinWith(stack, [Separator]) != "" &&
                            JoinWith(stack, [Separator])[0] != Separator
    ensures var r := Render(stack, rooted);
            |r| > 1 && r[0] == Separator ==> r[1] != Separator
    ensures !rooted ==> Render(stack, rooted)[0] != Separator
  {
    if stack != [] {
      JoinWithStartsWith(stack, [Separator]);
      assert stack[0][0] in stack[0];
    }
  }

  /** Cleaning the rendering of a normal stack changes nothing. */
  lemma {:induction false} CleanRender(stack: seq<string>, rooted: bool)
    requires Normal(stack, rooted)
    ensures Clean(Render(stack, rooted)) == Render(stack, rooted)
  {
    var q := Render(stack, rooted);
    var body := JoinWith(stack, [Separator]);
    RenderShape(stack, rooted);
    if stack != [] {
      SplitJoin(stack, Separator);
    }
    if rooted {
      assert q[0] == Separator && q[1..] == body;
      assert SplitOn(q, Separator) == [""] + SplitOn(body, Separator);
      if stack == [] {
        assert SplitOn(q, Separator) == ["", ""];
        assert ["", ""][1..] == [""];
        assert Fold([], ["", ""], true) == Fold([], [""], true) == Fold([], [], true);
        assert Clean(q) == Render(Fold([], ["", ""], true), true);
      } else {
        FoldIdentity([], stack, rooted);
        assert ([""] + stack)[1..] == stack;
        assert Fold([], [""] + stack, rooted) == Fold([], stack, rooted);
        assert [] + stack == stack;
        assert Clean(q) == Render(Fold([], [""] + stack, rooted), rooted);
      }
    } else if stack == [] {
      CleanDot();
    } else {
      assert q == body;
      FoldIdentity([], stack, rooted);
      assert [] + stack == stack;
    }
  }

  lemma CleanDot()
    ensures Clean(".") == "."
  {
    SplitOnWithout(".", Separator);
    assert Fold([], ["."], false) == Fold([], [], false) == [];
  }

  /** `filepath.Clean` is idempotent. */
  lemma CleanIdempotent(path: string)
    ensures Clean(Clean(path)) == Clean(path)
  {
    if path == "" {
      CleanDot();
    } else {
      var rooted := path[0] == Separator;
      FoldNormal([], SplitOn(path, Separator), rooted);
      CleanRender(Fold([], SplitOn(path, Separator), rooted), rooted);
    }
  }

  /** Folding a concatenation folds the parts in turn. */
  lemma {:induction false} FoldConcat(stack: seq<string>, p: seq<string>, q: seq<string>, rooted: bool)
    ensures Fold(stack, p + q, rooted) == Fold(Fold(stack, p, rooted), q, rooted)
    decreases |p|
  {
    if p == [] {
      assert p + q == q;
    } else {
      assert (p + q)[0] == p[0] && (p + q)[1..] == p[1..] + q;
      FoldConcat(Step(stack, p[0], rooted), p[1..], q, rooted);
    }
  }

  /** A doubled separator cleans like a single one. */
  lemma CleanDoubleSeparator(a: string, b: string)
    ensures Clean(a + [Separator] + [Separator] + b) == Clean(a + [Separator] + b)
  {
    var single := a + [Separator] + b;
    var double := a + [Separator] + ([Separator] + b);
    assert a + [Separator] + [Separator] + b == double;
    SplitOnConcat(a, b, Separator);
    SplitOnConcat(a, [Separator] + b, Separator);
    SplitOnConcat([], b, Separator);
    assert [] + [Separator] + b == [Separator] + b;
    var rooted := double[0] == Separator;
    assert single[0] == double[0];
    var pa, pb := SplitOn(a, Separator), SplitOn(b, Separator);
    assert SplitOn(double, Separator) == pa + ([""] + pb);
    FoldConcat([], pa, [""] + pb, rooted);
    FoldConcat([], pa, pb, rooted);
    assert ([""] + pb)[1..] == pb;
  }

  /** The path with any trailing separators removed. */
  function TrimTrailing(path: string): (r: string)
    ensures HasPrefix(path, r)
    ensures r == [] || r[|r| - 1] != Separator
  {
    if path != [] && path[|path| - 1] == Separator then
      var r := TrimTrailing(path[..|path| - 1]);
      assert path[..|r|] == path[..|path| - 1][..|r|];
      r
    else path
  }

  /** `filepath.Base`: the last element, trailing separators ignored; "." for "",
      "/" for a path made only of separators. */
  function Base(path: string): (r: string)
    ensures r != ""
    ensures r == [Separator] || Separator !in r
  {
    if path == "" then "."
    else
      var trimmed := TrimTrailing(path);
      var last := trimmed[LastIndexOf(trimmed, Separator) + 1..];
      if last == "" then [Separator] else last
  }

  /** `filepath.Dir`: everything up to the last separator, cleaned. */
  function Dir(path: string): (r: string)
    ensures r != ""
  {
    Clean(path[..LastIndexOf(path, Separator) + 1])
  }

  /** `filepath.Split`: the directory (with its trailing separator) and the file. */
  function Split(path: string): (r: (string, string))
    ensures r.0 + r.1 == path
    ensures Separator !in r.1
    ensures r.0 == "" || r.0[|r.0| - 1] == Separator
  {
    var i := LastIndexOf(path, Separator);
    var dir, file := path[..i + 1], path[i + 1..];
    assert dir + file == path;
    (dir, file)
  }

  function DropLeadingEmpty(elems: seq<string>): (r: seq<string>)
    ensures r == [] || r[0] != ""
    ensures (forall i :: 0 <= i < |elems| ==> elems[i] == "") ==> r == []
  {
    if elems == [] || elems[0] != "" then elems else DropLeadingEmpty(elems[1..])
  }

  /** `filepath.Join`: join from the first non-empty element on, then clean; "" when
      every element is empty (including no elements at all). */
  function Join(elems: seq<string>): (r: string)
    ensures (forall i :: 0 <= i < |elems| ==> elems[i] == "") ==> r == ""
  {
    var rest := DropLeadingEmpty(elems);
    if rest == [] then "" else Clean(JoinWith(rest, [Separator]))
  }

  /** Joining onto a non-empty head is cleaning the '/'-joined text. */
  lemma JoinTwo(a: string, b: string)
    requires a != ""
    ensures Join([a, b]) == Clean(a + [Separator] + b)
  {
    assert DropLeadingEmpty([a, b]) == [a, b];
    assert [a, b][1..] == [b];
    assert JoinWith([a, b], [Separator]) == a + [Separator] + b;
  }

  lemma JoinThree(a: string, b: string, c: string)
    requires a != ""
    ensures Join([a, b, c]) == Clean(a + [Separator] + b + [Separator] + c)
  {
    assert DropLeadingEmpty([a, b, c]) == [a, b, c];
    assert [a, b, c][1..] == [b, c] && [b, c][1..] == [c];
    assert JoinWith([b, c], [Separator]) == b + [Separator] + c;
    assert JoinWith([a, b, c], [Separator]) == a + [Separator] + JoinWith([b, c], [Separator]);
    assert JoinWith([a, b, c], [Separator]) == a + [Separator] + b + [Separator] + c;
    assert Join([a, b, c]) == Clean(JoinWith([a, b, c], [Separator]));
  }

  /** Joining what `Split` separates and cleaning gives the cleaned path back. */
  lemma CleanJoinOfSplit(path: string)
    ensures Clean(Join([Split(path).0, Split(path).1])) == Clean(path)
  {
    var (dir, file) := Split(path);
    if dir == "" {
      if file != "" {
        assert DropLeadingEmpty([dir, file]) == DropLeadingEmpty([file]) == [file];
        assert JoinWith([file], [Separator]) == file;
        CleanIdempotent(file);
      }
    } else {
      var head := dir[..|dir| - 1];
      assert dir == head + [Separator];
      JoinTwo(dir, file);
      assert dir + [Separator] + file == head + [Separator] + [Separator] + file;
      assert head + [Separator] + file == path;
      CleanDoubleSeparator(head, file);
      CleanIdempotent(path);
    }
  }
}

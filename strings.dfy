/** The small part of Go's `strings` package that the path calculus is built on:
    `strings.LastIndex`, `strings.Split`, `strings.Join`, `strings.HasPrefix` and
    `strings.HasSuffix`, specialised to a single-character separator. */
module Strings {

  /** `strings.HasPrefix(s, p)` */
  predicate HasPrefix(s: string, p: string) {
    |p| <= |s| && s[..|p|] == p
  }

  /** `strings.HasSuffix(s, p)` */
  predicate HasSuffix(s: string, p: string) {
    |p| <= |s| && s[|s| - |p|..] == p
  }

  /** `strings.LastIndex(s, string(c))`: -1 when `c` does not occur. */
  function LastIndexOf(s: string, c: char): (r: int)
    ensures -1 <= r < |s|
    ensures r == -1 <==> c !in s
    ensures 0 <= r ==> s[r] == c && c !in s[r + 1..]
  {
    if s == [] then -1
    else if s[|s| - 1] == c then |s| - 1
    else
      var r := LastIndexOf(s[..|s| - 1], c);
      assert s[r + 1..] == s[..|s| - 1][r + 1..] + [s[|s| - 1]];
      assert s == s[..|s| - 1] + [s[|s| - 1]];
      r
  }

  /** `strings.Split(s, string(c))`: never empty, `Split("", c) == [""]`. */
  function SplitOn(s: string, c: char): (r: seq<string>)
    ensures |r| >= 1
    ensures forall i :: 0 <= i < |r| ==> c !in r[i]
  {
    if s == [] then [""]
    else
      var rest := SplitOn(s[1..], c);
      if s[0] == c then [""] + rest
      else [[s[0]] + rest[0]] + rest[1..]
  }

  /** `strings.Join(xs, sep)`: `Join([]) == ""`. */
  function JoinWith(xs: seq<string>, sep: string): string
  {
    if |xs| == 0 then ""
    else if |xs| == 1 then xs[0]
    else xs[0] + sep + JoinWith(xs[1..], sep)
  }

  /** A join starts with the first element and ends with the last; no
      elements join to "". */
  lemma {:induction false} JoinWithEnds(xs: seq<string>, sep: string)
    ensures |xs| == 0 ==> JoinWith(xs, sep) == ""
    ensures |xs| > 0 ==> HasPrefix(JoinWith(xs, sep), xs[0]) && HasSuffix(JoinWith(xs, sep), xs[|xs| - 1])
  {
    if |xs| > 1 {
      JoinWithEnds(xs[1..], sep);
      var rest := JoinWith(xs[1..], sep);
      assert JoinWith(xs, sep) == xs[0] + sep + rest;
      assert xs[1..][|xs[1..]| - 1] == xs[|xs| - 1];
    }
  }

  lemma {:induction false} JoinWithConsHead(x: string, xs: seq<string>, sep: string, ch: char)
    requires |xs| >= 1
    ensures JoinWith([[ch] + xs[0]] + xs[1..], sep) == [ch] + JoinWith(xs, sep)
  {
    var ys := [[ch] + xs[0]] + xs[1..];
    assert ys[1..] == xs[1..];
  }

  /** Joining the pieces of a split gives back the original string. */
  lemma {:induction false} JoinSplit(s: string, c: char)
    ensures JoinWith(SplitOn(s, c), [c]) == s
  {
    if s != [] {
      var rest := SplitOn(s[1..], c);
      JoinSplit(s[1..], c);
      if s[0] == c {
        assert ([""] + rest)[1..] == rest;
        assert s == [c] + s[1..];
      } else {
        JoinWithConsHead(s[0..1], rest, [c], s[0]);
        assert s == [s[0]] + s[1..];
      }
    }
  }

  /** A string without the separator splits into itself. */
  lemma {:induction false} SplitOnWithout(s: string, c: char)
    requires c !in s
    ensures SplitOn(s, c) == [s]
  {
    if s != [] {
      assert c !in s[1..];
      SplitOnWithout(s[1..], c);
      assert s == [s[0]] + s[1..];
    }
  }

  /** Splitting `a + c + b` with `c` absent from `a` cuts at that first `c`. */
  lemma {:induction false} SplitOnAt(a: string, b: string, c: char)
    requires c !in a
    ensures SplitOn(a + [c] + b, c) == [a] + SplitOn(b, c)
  {
    if a == [] {
      assert (a + [c] + b)[1..] == b;
    } else {
      var s := a + [c] + b;
      assert s[0] == a[0] && s[1..] == a[1..] + [c] + b;
      assert c !in a[1..];
      SplitOnAt(a[1..], b, c);
      assert [a[0]] + a[1..] == a;
    }
  }

  /** Splitting a join of separator-free pieces gives the pieces back. */
  lemma {:induction false} SplitJoin(xs: seq<string>, c: char)
    requires |xs| >= 1
    requires forall i :: 0 <= i < |xs| ==> c !in xs[i]
    ensures SplitOn(JoinWith(xs, [c]), c) == xs
  {
    if |xs| == 1 {
      SplitOnWithout(xs[0], c);
    } else {
      SplitJoin(xs[1..], c);
      SplitOnAt(xs[0], JoinWith(xs[1..], [c]), c);
      assert [xs[0]] + xs[1..] == xs;
    }
  }

  /** A join starts with its first piece. */
  lemma {:induction false} JoinWithStartsWith(xs: seq<string>, sep: string)
    requires |xs| >= 1
    ensures HasPrefix(JoinWith(xs, sep), xs[0])
  {
    if |xs| > 1 {
      assert JoinWith(xs, sep) == xs[0] + (sep + JoinWith(xs[1..], sep));
    }
  }

  /** A join of pieces that avoid the separator character avoids it too
      when there is at most one piece. */
  lemma {:induction false} JoinWithFree(xs: seq<string>, c: char)
    requires forall i :: 0 <= i < |xs| ==> c !in xs[i]
    ensures c in JoinWith(xs, [c]) <==> |xs| > 1
  {
    if |xs| > 1 {
      assert JoinWith(xs, [c])[|xs[0]|] == c;
    }
  }

  /** Splitting at one occurrence of the separator: the pieces of each side. */
  lemma {:induction false} SplitOnConcat(x: string, y: string, c: char)
    ensures SplitOn(x + [c] + y, c) == SplitOn(x, c) + SplitOn(y, c)
  {
    if x == [] {
      assert x + [c] + y == [c] + y;
      assert ([c] + y)[1..] == y;
    } else {
      var s := x + [c] + y;
      assert s[0] == x[0] && s[1..] == x[1..] + [c] + y;
      SplitOnConcat(x[1..], y, c);
    }
  }
}

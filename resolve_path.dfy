/** resolve-path.go: resolve a leading '~' against the home directory, and any
    other path to an absolute one. The home directory and the absolute-path
    resolver are passed in: as overrides, or standing for `os.UserHomeDir` and
    `filepath.Abs` (both branches of the source have this one shape). */
module ResolvePath {
  import opened Wrappers
  import GoPath

  const Tilde: char := '~'

  /** `ResolvePath`: `home` is the home resolver's answer (None when it fails),
      `abs` the absolute-path resolver. A failing resolver leaves the path as it
      was. The path may not be empty: its first character is always read. */
  function ResolvePath(path: string, home: Option<string>, abs: string -> Option<string>): (r: string)
    requires |path| > 0
    ensures path[0] == Tilde && home.Some? && home.value != "" ==>
              r == GoPath.Clean(home.value + [GoPath.Separator] + path[1..])
    ensures path[0] == Tilde && home.None? ==> r == path
    ensures path[0] != Tilde ==> r == if abs(path).Some? then abs(path).value else path
  {
    if path[0] == Tilde then
      if home.Some? then
        if home.value != "" then GoPath.JoinTwo(home.value, path[1..]); GoPath.Join([home.value, path[1..]])
        else GoPath.Join([home.value, path[1..]])
      else path
    else if abs(path).Some? then abs(path).value
    else path
  }

  /** `filepath.Abs` with `cwd` the working directory (None when it cannot be
      found): a rooted path is cleaned without asking for `cwd`, any other is
      joined onto `cwd` and fails without it. */
  function Abs(cwd: Option<string>, path: string): (r: Option<string>)
    ensures r.Some? <==> cwd.Some? || (path != "" && path[0] == GoPath.Separator)
    ensures path != "" && path[0] == GoPath.Separator ==> r == Some(GoPath.Clean(path))
  {
    if path != "" && path[0] == GoPath.Separator then Some(GoPath.Clean(path))
    else if cwd.None? then None
    else Some(GoPath.Join([cwd.value, path]))
  }

  /** With a rooted home directory and working directory, a resolved path is
      rooted and clean, unless a resolver failed and the path came back as it
      was. */
  lemma ResolvedIsAbsolute(path: string, home: Option<string>, cwd: Option<string>)
    requires |path| > 0
    requires home.Some? ==> home.value != "" && home.value[0] == GoPath.Separator
    requires cwd.Some? ==> cwd.value != "" && cwd.value[0] == GoPath.Separator
    ensures var r := ResolvePath(path, home, p => Abs(cwd, p));
            r == path || (r != "" && r[0] == GoPath.Separator && GoPath.Clean(r) == r)
  {
    var r := ResolvePath(path, home, p => Abs(cwd, p));
    if path[0] == Tilde && home.Some? {
      GoPath.CleanIdempotent(home.value + [GoPath.Separator] + path[1..]);
    } else if path[0] != Tilde {
      if path[0] == GoPath.Separator {
        GoPath.CleanIdempotent(path);
      } else if cwd.Some? {
        GoPath.JoinTwo(cwd.value, path);
        GoPath.CleanIdempotent(cwd.value + [GoPath.Separator] + path);
      }
    }
  }

  /** Under the same conditions resolving is idempotent: a resolved path resolves
      to itself. */
  lemma ResolveIdempotent(path: string, home: Option<string>, cwd: Option<string>)
    requires |path| > 0
    requires home.Some? ==> home.value != "" && home.value[0] == GoPath.Separator
    requires cwd.Some? ==> cwd.value != "" && cwd.value[0] == GoPath.Separator
    ensures var abs := p => Abs(cwd, p);
            var r := ResolvePath(path, home, abs);
            |r| > 0 && ResolvePath(r, home, abs) == r
  {
    ResolvedIsAbsolute(path, home, cwd);
  }
}

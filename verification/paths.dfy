/** POSIX `os.path.join` of two components, as used for upload paths and for
    the derived crop-image paths. */
module Paths {

  predicate IsAbsolute(p: string) {
    |p| > 0 && p[0] == '/'
  }

  /** What `join` puts in front of a relative second component: the
      directory, followed by a separator unless it is empty or already ends
      in one. */
  function DirPrefix(dir: string): (p: string)
    ensures |p| == 0 || p[|p| - 1] == '/'
    ensures |dir| <= |p| && p[..|dir|] == dir
  {
    if |dir| == 0 || dir[|dir| - 1] == '/' then dir else dir + "/"
  }

  /** `os.path.join(dir, name)`: an absolute `name` discards `dir`. */
  function Join(dir: string, name: string): (p: string)
    ensures IsAbsolute(name) ==> p == name
    ensures !IsAbsolute(name) ==> p == DirPrefix(dir) + name
  {
    if IsAbsolute(name) then name
    else if |dir| == 0 || dir[|dir| - 1] == '/' then dir + name
    else dir + "/" + name
  }

  /** Within one directory, relative names are never conflated. */
  lemma JoinInjective(dir: string, n1: string, n2: string)
    requires !IsAbsolute(n1) && !IsAbsolute(n2)
    requires Join(dir, n1) == Join(dir, n2)
    ensures n1 == n2
  {
    var p := DirPrefix(dir);
    assert n1 == (p + n1)[|p|..];
    assert n2 == (p + n2)[|p|..];
  }
}

/** The POSIX behaviour of `os.path.join`, `str(pathlib.Path(p))` and `pathlib.Path(p).name`,
    which decide the path string the meme generator returns. */
module PyPaths {
  import opened Seqs
  import opened PyStrings

  /** `os.path.join(a, b)`: an absolute `b` replaces `a`; otherwise one '/' separates them
      unless `a` is empty or already ends in '/'. */
  function PathJoin(a: string, b: string): string
  {
    if |b| > 0 && b[0] == '/' then b
    else if a == [] || a[|a| - 1] == '/' then a + b
    else a + "/" + b
  }

  /** The root pathlib keeps: "//" for exactly two leading slashes, "/" for one or for
      three and more, nothing for a relative path. */
  function PathRoot(p: string): string
  {
    if |p| >= 1 && p[0] == '/' then
      if |p| >= 2 && p[1] == '/' && !(|p| >= 3 && p[2] == '/') then "//" else "/"
    else ""
  }

  /** A component pathlib keeps: not empty (doubled or trailing slashes) and not ".". */
  predicate IsPathPart(x: string)
  {
    x != [] && x != "."
  }

  /** The components pathlib keeps after the root. */
  function PathTail(p: string): seq<string>
  {
    Keep(Split(p, '/'), IsPathPart)
  }

  /** `str(pathlib.PurePosixPath(p))`. */
  function PathStr(p: string): string
  {
    if PathRoot(p) == [] && PathTail(p) == [] then "."
    else PathRoot(p) + JoinWith(PathTail(p), '/')
  }

  /** `pathlib.PurePosixPath(p).name`: the last kept component, or "" when there is none. */
  function PathName(p: string): string
  {
    var tail := PathTail(p);
    if tail == [] then [] else tail[|tail| - 1]
  }

  /** A path's name never holds a '/'. */
  lemma PathNameNoSlash(p: string)
    ensures '/' !in PathName(p)
  {
    var parts := Split(p, '/');
    var tail := PathTail(p);
    if tail != [] {
      var n := tail[|tail| - 1];
      assert n in tail;
      KeepMembers(parts, IsPathPart);
      SplitPieces(p, '/');
      var k :| 0 <= k < |parts| && parts[k] == n;
    }
  }

  /** A plain component: what a file or directory name without any slash looks like. */
  predicate IsPlainName(x: string)
  {
    IsPathPart(x) && '/' !in x
  }

  /** A plain name stands for itself, both as a path string and as a path's name. */
  lemma PlainNamePath(d: string)
    requires IsPlainName(d)
    ensures PathTail(d) == [d]
    ensures PathStr(d) == d && PathName(d) == d
  {
    SplitNoSeparator(d, '/');
    assert Keep([d], IsPathPart) == [d] + Keep([d][1..], IsPathPart);
  }

  lemma DotSlashTail(d: string)
    requires IsPlainName(d)
    ensures PathRoot("./" + d) == [] && PathTail("./" + d) == [d]
  {
    var p := "./" + d;
    var dot: string := ".";
    assert p == dot + ['/'] + d;
    SplitConcatSep(dot, d, '/');
    SplitNoSeparator(dot, '/');
    SplitNoSeparator(d, '/');
    assert Split(p, '/') == [dot, d];
    KeepTwo(dot, d);
    assert !IsPathPart(dot);
    assert p[0] == '.';
  }

  /** Two plain names joined by '/': the path string keeps both, the name is the second. */
  lemma {:induction false} NestedPath(a: string, b: string)
    requires IsPlainName(a) && IsPlainName(b)
    ensures PathStr(a + "/" + b) == a + "/" + b
    ensures PathName(a + "/" + b) == b
  {
    var p := a + "/" + b;
    assert p == a + ['/'] + b;
    SplitConcatSep(a, b, '/');
    SplitNoSeparator(a, '/');
    SplitNoSeparator(b, '/');
    assert Split(p, '/') == [a, b];
    KeepTwo(a, b);
    assert PathTail(p) == [a, b];
    assert a[0] != '/' by { assert a[0] in a; }
    assert PathRoot(p) == [];
    assert JoinWith([a, b], '/') == a + ['/'] + JoinWith([b], '/');
  }

  /** A relative path with one kept component is that component, as string and as name. */
  lemma SingleComponent(p: string, d: string)
    requires PathRoot(p) == [] && PathTail(p) == [d] && IsPlainName(d)
    ensures PathStr(p) == d && PathName(p) == d
  {
  }

  lemma KeepTwo(x: string, y: string)
    ensures Keep([x, y], IsPathPart) == (if IsPathPart(x) then [x] else []) + (if IsPathPart(y) then [y] else [])
  {
    assert [x, y][1..] == [y];
    assert Keep([y], IsPathPart) == (if IsPathPart(y) then [y] else []) + Keep([y][1..], IsPathPart);
  }

  /** Whatever directory a plain file name is joined onto, the name of the result is
      that file name. */
  lemma {:induction false} NameOfJoin(dir: string, name: string)
    requires IsPlainName(name)
    ensures PathName(PathJoin(dir, name)) == name
  {
    SplitNoSeparator(name, '/');
    assert name[0] != '/' by { assert name[0] in name; }
    var front := if dir == [] then [] else if dir[|dir| - 1] == '/' then dir[..|dir| - 1] else dir;
    if dir == [] {
      assert PathJoin(dir, name) == name;
      PlainNamePath(name);
    } else {
      if dir[|dir| - 1] == '/' {
        assert dir == front + "/";
      }
      assert PathJoin(dir, name) == front + ['/'] + name;
      SplitConcatSep(front, name, '/');
      KeepAppend(Split(front, '/'), [name], IsPathPart);
      assert Keep([name], IsPathPart) == [name] + Keep([name][1..], IsPathPart);
    }
  }

  /** A join of pieces ends with the last piece's last character. */
  lemma {:induction false} JoinWithLast(parts: seq<string>, sep: char)
    requires parts != [] && parts[|parts| - 1] != []
    ensures var j := JoinWith(parts, sep); j != [] && j[|j| - 1] == parts[|parts| - 1][|parts[|parts| - 1]| - 1]
  {
    if |parts| > 1 {
      JoinWithLast(parts[1..], sep);
      assert parts[1..][|parts| - 2] == parts[|parts| - 1];
    }
  }

  /** Unless the path is a bare root, its string does not end in '/'. */
  lemma PathStrNoTrailingSlash(p: string)
    requires PathRoot(p) == [] || PathTail(p) != []
    ensures PathStr(p) != [] && PathStr(p)[|PathStr(p)| - 1] != '/'
  {
    var tail := PathTail(p);
    if tail != [] {
      var last := tail[|tail| - 1];
      KeepMembers(Split(p, '/'), IsPathPart);
      SplitPieces(p, '/');
      assert last in tail;
      assert last != [] && '/' !in last;
      JoinWithLast(tail, '/');
      assert last[|last| - 1] in last;
    }
  }
}

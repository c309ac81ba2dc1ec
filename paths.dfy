/** The POSIX path operations of `os.path` and `pathlib` that the scripts use to name their files. */
module Paths {
  import opened Strings

  /** `os.path.join(a, b)`: an absolute b replaces a; otherwise one '/' separates them. */
  function PathJoin(a: string, b: string): (r: string)
    ensures EndsWith(r, b)
  {
    if StartsWith(b, "/") then b
    else if a == "" || EndsWith(a, "/") then a + b
    else a + "/" + b
  }

  /** The index just past the last '/' of p, or 0 when p has none. */
  function TailStart(p: string): (k: nat)
    ensures k <= |p|
    ensures '/' !in p[k..]
    ensures k > 0 ==> p[k - 1] == '/'
  {
    if |p| == 0 then 0
    else if p[|p| - 1] == '/' then |p|
    else
      var k := TailStart(p[..|p| - 1]);
      assert p[k..] == p[..|p| - 1][k..] + [p[|p| - 1]];
      k
  }

  /** A '/'-free tail after a separator (or after nothing) starts right after it. */
  lemma {:induction false} TailStartAppend(a: string, b: string)
    requires a == "" || EndsWith(a, "/")
    requires '/' !in b
    ensures TailStart(a + b) == |a|
    decreases |b|
  {
    if |b| == 0 {
      assert a + b == a;
    } else {
      assert (a + b)[..|a + b| - 1] == a + b[..|b| - 1];
      TailStartAppend(a, b[..|b| - 1]);
    }
  }

  /** `os.path.basename(p)`: the text after the last '/'. */
  function BaseName(p: string): string
  {
    p[TailStart(p)..]
  }

  predicate AllSlashes(s: string) {
    forall i :: 0 <= i < |s| ==> s[i] == '/'
  }

  /** `s.rstrip('/')` */
  function RStripSlashes(s: string): string
  {
    if |s| > 0 && s[|s| - 1] == '/' then RStripSlashes(s[..|s| - 1]) else s
  }

  /** `os.path.split(p)[0]`: everything up to the last '/', with the trailing slashes
      removed unless it consists of slashes only. */
  function DirName(p: string): string
  {
    var head := p[..TailStart(p)];
    if head != "" && !AllSlashes(head) then RStripSlashes(head) else head
  }

  /** The index of the last occurrence of c in s, or -1. */
  function LastIndex(s: string, c: char): (k: int)
    ensures -1 <= k < |s|
    ensures 0 <= k ==> s[k] == c
    ensures forall j :: k < j < |s| ==> s[j] != c
  {
    if |s| == 0 then -1
    else if s[|s| - 1] == c then |s| - 1
    else LastIndex(s[..|s| - 1], c)
  }

  /** `pathlib.PurePath(p).stem`: the last component without its last suffix. */
  function Stem(p: string): string
  {
    NameStem(BaseName(p))
  }

  /** A file name without its last suffix, where a suffix is a '.' that is neither the first
      nor the last character of the name. */
  function NameStem(name: string): string
  {
    var i := LastIndex(name, '.');
    if 0 < i < |name| - 1 then name[..i] else name
  }

  /** Joining a directory and a plain file name, the name is the last component. */
  lemma BaseNameOfJoin(dir: string, name: string)
    requires '/' !in name
    ensures BaseName(PathJoin(dir, name)) == name
  {
    NoSlashNotAbsolute(name);
    if dir == "" || EndsWith(dir, "/") {
      TailStartAppend(dir, name);
    } else {
      assert EndsWith(dir + "/", "/");
      TailStartAppend(dir + "/", name);
    }
  }

  /** Joining a directory and a plain file name, the directory is what `os.path.split` gives back. */
  lemma DirNameOfJoin(dir: string, name: string)
    requires |dir| > 0 && dir[|dir| - 1] != '/'
    requires '/' !in name
    ensures DirName(PathJoin(dir, name)) == dir
  {
    var p := PathJoin(dir, name);
    NoSlashNotAbsolute(name);
    assert p == (dir + "/") + name;
    assert EndsWith(dir + "/", "/");
    TailStartAppend(dir + "/", name);
    var head := p[..TailStart(p)];
    assert head == dir + "/";
    assert head[|dir| - 1] != '/';
    assert head[..|head| - 1] == dir;
    assert RStripSlashes(dir) == dir;
    assert RStripSlashes(head) == RStripSlashes(dir);
  }

  lemma NoSlashNotAbsolute(name: string)
    requires '/' !in name
    ensures !StartsWith(name, "/")
  {
    if |name| >= 1 {
      assert name[..1][0] == name[0] != '/';
    }
  }

  /** Joining a plain name to a directory does not change its stem. */
  lemma StemOfJoin(movie: string, name: string)
    requires '/' !in name
    ensures Stem(PathJoin(movie, name)) == Stem(name)
  {
    BaseNameOfJoin(movie, name);
    BaseNameOfJoin("", name);
    NoSlashNotAbsolute(name);
    assert PathJoin("", name) == name;
    assert BaseName(name) == name;
  }

  lemma StemHasNoSlash(p: string)
    ensures '/' !in Stem(p)
  {
    var name := BaseName(p);
    var i := LastIndex(name, '.');
    if 0 < i < |name| - 1 {
      assert forall c :: c in name[..i] ==> c in name;
      assert Stem(p) == name[..i];
    }
  }
}

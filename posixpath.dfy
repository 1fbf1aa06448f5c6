/**
 * The `posixpath` functions the publish plugins use on file paths:
 * `basename`, `dirname`, `join` and `splitext`, with `/` as the only
 * separator.
 */
module PosixPath {
  import opened Strs

  predicate AllSlashes(s: string) {
    forall j :: 0 <= j < |s| ==> s[j] == '/'
  }

  /** `os.path.dirname`: the text up to the last `/`, with trailing slashes dropped unless it is all slashes. */
  function Dirname(path: string): string {
    var head := path[..LastIndex(path, '/') + 1];
    if head != "" && !AllSlashes(head) then RStrip(head, {'/'}) else head
  }

  /** `os.path.basename`: the text after the last `/`. */
  function Basename(path: string): string {
    AfterLast(path, '/')
  }

  /** `os.path.join(head, name)` for a name that does not start with `/`. */
  function PathJoin(head: string, name: string): string {
    if head == "" || head[|head| - 1] == '/' then head + name else head + "/" + name
  }

  /** `os.path.join(head, name)` for any name: one starting with `/` replaces the head. */
  function JoinName(head: string, name: string): (r: string)
    ensures StartsWith(name, "/") ==> r == name
    ensures !StartsWith(name, "/") ==> r == PathJoin(head, name)
  {
    if |name| > 0 && name[0] == '/' then name else PathJoin(head, name)
  }

  /** Where `os.path` cuts `dir/base`. */
  lemma SplitPathAt(dir: string, base: string)
    requires '/' !in base
    requires dir == "" || dir[|dir| - 1] != '/'
    ensures Basename(dir + "/" + base) == base
    ensures Dirname(dir + "/" + base) == if dir == "" then "/" else dir
  {
    var path := dir + "/" + base;
    RSplitAppend(dir, base, '/');
    var head := path[..LastIndex(path, '/') + 1];
    assert head == dir + "/";
    if dir != "" {
      assert !AllSlashes(head) by { assert head[|dir| - 1] == dir[|dir| - 1]; }
      RStripSuffix(dir, "/", {'/'});
    }
  }

  /** Joining a name back onto the directory `os.path.dirname` returned. */
  lemma JoinAfterDir(dir: string, name: string)
    requires dir == "" || dir[|dir| - 1] != '/'
    ensures PathJoin(if dir == "" then "/" else dir, name) == dir + "/" + name
  {
    if dir == "" {
      EmptyLeft("/");
    }
  }

  /** Some character of `p[lo..hi]` is not a dot. */
  predicate HasNonDot(p: string, lo: int, hi: int)
    requires 0 <= lo && hi <= |p|
  {
    exists j :: lo <= j < hi && p[j] != '.'
  }

  /**
   * `os.path.splitext(p)`: the root and the extension.  The extension
   * starts at the last dot after the last `/`, unless the name holds only
   * dots before it (a leading-dot name such as `.bashrc` has none).
   */
  function Splitext(p: string): (string, string) {
    var sep := LastIndex(p, '/');
    var dot := LastIndex(p, '.');
    if dot > sep && HasNonDot(p, sep + 1, dot) then (p[..dot], p[dot..]) else (p, "")
  }

  /** The root and the extension put back together give the path. */
  lemma SplitextJoin(p: string)
    ensures Splitext(p).0 + Splitext(p).1 == p
  {
    var dot := LastIndex(p, '.');
    if Splitext(p).1 != "" {
      CutAt(p, dot);
    }
  }

  /** The extension is empty, or a dot followed by neither a dot nor a `/`. */
  lemma SplitextExt(p: string)
    ensures var ext := Splitext(p).1;
            ext == "" || (ext[0] == '.' && '.' !in ext[1..] && '/' !in ext)
  {
    var sep := LastIndex(p, '/');
    var dot := LastIndex(p, '.');
    if Splitext(p).1 != "" {
      ExtShape(p, sep, dot);
    }
  }

  lemma ExtShape(p: string, sep: int, dot: nat)
    requires -1 <= sep < dot < |p| && p[dot] == '.' && '.' !in p[dot + 1..] && '/' !in p[sep + 1..]
    ensures p[dot..][0] == '.' && '.' !in p[dot..][1..] && '/' !in p[dot..]
  {
    TailOf(p, dot);
    assert forall j :: 0 <= j < |p[dot..]| ==> p[dot..][j] == p[sep + 1..][dot - sep - 1 + j];
  }

  /** A name whose root has a character other than a dot splits at the dot of its extension. */
  lemma SplitextOf(root: string, ext: string)
    requires '/' !in root && '/' !in ext
    requires |ext| > 0 && ext[0] == '.' && '.' !in ext[1..]
    requires exists j :: 0 <= j < |root| && root[j] != '.'
    ensures Splitext(root + ext) == (root, ext)
  {
    var p := root + ext;
    assert p[|root|] == '.';
    assert p[|root| + 1..] == ext[1..];
    assert LastIndex(p, '.') == |root|;
    assert '/' !in p;
    var j :| 0 <= j < |root| && root[j] != '.';
    assert p[j] == root[j];
    assert HasNonDot(p, 0, |root|);
  }

  /** A name without a dot has no extension. */
  lemma SplitextNoDot(p: string)
    requires '.' !in p
    ensures Splitext(p) == (p, "")
  { }
}

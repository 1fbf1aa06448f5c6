/**
 * The string logic of the Maya host library (`client/ayon_maya/api/lib.py`):
 * namespaces, long DAG paths, frame rates, component counts and `.xgen`
 * files.  Maya itself is not modelled: the current namespace and the set of
 * node and namespace paths that exist are parameters.
 */
module MayaLib {
  import opened Strs
  import opened PyData

  // ---------------------------------------------------------------------
  // Namespaces of node names

  /** `get_namespace`: the namespace of the leaf of a (long) node name. */
  function GetNamespace(node: string): (ns: string)
    ensures var leaf := AfterLast(node, '|');
      (':' in leaf ==> leaf == ns + [':'] + AfterLast(leaf, ':')) && (':' !in leaf ==> ns == "")
    ensures '|' !in ns
  {
    var leaf := AfterLast(node, '|');
    AfterLastFree(node, '|');
    if ':' in leaf then
      RSplitJoin(leaf, ':');
      BeforeLast(leaf, ':')
    else ""
  }

  /** The namespace of a node does not depend on its parents. */
  lemma GetNamespaceIgnoresParents(parent: string, leaf: string)
    requires '|' !in leaf
    ensures GetNamespace(parent + "|" + leaf) == GetNamespace(leaf)
  {
    RSplitAppend(parent, leaf, '|');
    assert LastIndex(leaf, '|') == -1;
    assert AfterLast(leaf, '|') == leaf;
  }

  /** The namespace is what comes before the last `:` of a leaf name. */
  lemma GetNamespaceOfLeaf(ns: string, name: string)
    requires '|' !in ns && '|' !in name && ':' !in name
    ensures GetNamespace(ns + ":" + name) == ns
  {
    var leaf := ns + ":" + name;
    assert '|' !in leaf;
    assert AfterLast(leaf, '|') == leaf;
    RSplitAppend(ns, name, ':');
    assert ':' in leaf by { assert leaf[|ns|] == ':'; }
  }

  /** `namespace` with the `:` that `strip_namespace` makes sure it ends with. */
  function WithColon(namespace: string): (r: string)
    ensures EndsWith(r, ":") && StartsWith(r, namespace)
    ensures EndsWith(namespace, ":") ==> r == namespace
  {
    if EndsWith(namespace, ":") then namespace else namespace + ":"
  }

  /** One path component with a leading namespace removed. */
  function StripComponent(name: string, ns: string): string {
    if StartsWith(name, ns) then name[|ns|..] else name
  }

  function StripEach(names: seq<string>, ns: string): (r: seq<string>)
    ensures |r| == |names|
    ensures forall i :: 0 <= i < |r| ==> r[i] == StripComponent(names[i], ns)
  {
    seq(|names|, i requires 0 <= i < |names| => StripComponent(names[i], ns))
  }

  /** `strip_namespace`: every component of the path loses the namespace it starts with. */
  function StripNamespace(node: string, namespace: string): string {
    Join(StripEach(Split(node, '|'), WithColon(namespace)), "|")
  }

  /**
   * Stripping keeps the path's components, one for one, and removes the
   * namespace exactly from the components that start with it.
   */
  lemma StripNamespaceComponents(node: string, namespace: string)
    ensures Split(StripNamespace(node, namespace), '|') == StripEach(Split(node, '|'), WithColon(namespace))
    ensures |Split(StripNamespace(node, namespace), '|')| == |Split(node, '|')|
  {
    var parts := Split(node, '|');
    var ns := WithColon(namespace);
    var stripped := StripEach(parts, ns);
    SplitPartsFree(node, '|');
    forall i | 0 <= i < |stripped| ensures '|' !in stripped[i] {
      assert '|' !in parts[i];
      if StartsWith(parts[i], ns) {
        assert stripped[i] == parts[i][|ns|..];
      }
    }
    SplitJoin(stripped, '|');
  }

  /** A path without the namespace anywhere is left alone. */
  lemma StripNamespaceAbsent(node: string, namespace: string)
    requires forall i :: 0 <= i < |Split(node, '|')| ==> !StartsWith(Split(node, '|')[i], WithColon(namespace))
    ensures StripNamespace(node, namespace) == node
  {
    var parts := Split(node, '|');
    assert StripEach(parts, WithColon(namespace)) == parts;
    JoinSplit(node, '|');
  }

  /** A single component loses the namespace it starts with. */
  lemma StripNamespaceLeaf(name: string, namespace: string)
    requires '|' !in name
    ensures StripNamespace(name, namespace) == StripComponent(name, WithColon(namespace))
  {
    SplitFree(name, '|');
  }

  /** A child component is stripped on its own, after its parent path. */
  lemma StripNamespaceChild(parent: string, leaf: string, namespace: string)
    requires '|' !in leaf
    ensures StripNamespace(parent + "|" + leaf, namespace) ==
      StripNamespace(parent, namespace) + "|" + StripComponent(leaf, WithColon(namespace))
  {
    var ns := WithColon(namespace);
    SplitAppendFree(parent, leaf, '|');
    assert parent + "|" + leaf == parent + ['|'] + leaf;
    var ps := Split(parent, '|');
    assert StripEach(ps + [leaf], ns) == StripEach(ps, ns) + [StripComponent(leaf, ns)];
    JoinSnoc(StripEach(ps, ns), StripComponent(leaf, ns), "|");
  }

  /** A name in the namespace comes out without it, whether or not the namespace was given with its `:`. */
  lemma StripOwnNamespace(namespace: string, name: string)
    requires '|' !in WithColon(namespace) + name
    ensures StripNamespace(WithColon(namespace) + name, namespace) == name
  {
    var ns := WithColon(namespace);
    assert '|' !in ns + name;
    StripNamespaceLeaf(ns + name, namespace);
    assert StartsWith(ns + name, ns);
    assert (ns + name)[|ns|..] == name;
  }

  // ---------------------------------------------------------------------
  // Unique namespaces

  /** How the iteration number is written into a candidate namespace. */
  datatype Padding = Padding(width: nat, prefix: string, suffix: string)

  /** The candidate for iteration `i`: `prefix + name + format % i + suffix`. */
  function Candidate(name: string, p: Padding, i: nat): string {
    p.prefix + name + ZeroPad(i, p.width) + p.suffix
  }

  /** Candidates for different iterations differ. */
  lemma CandidateInjective(name: string, p: Padding, i: nat, k: nat)
    requires Candidate(name, p, i) == Candidate(name, p, k)
    ensures i == k
  {
    var a, b := ZeroPad(i, p.width), ZeroPad(k, p.width);
    var n := |p.prefix + name|;
    var ci, ck := Candidate(name, p, i), Candidate(name, p, k);
    assert |a| == |b|;
    assert a == ci[n..n + |a|] == ck[n..n + |b|] == b;
    ZeroPadInjective(i, k, p.width);
  }

  /**
   * Where the unique name is looked up (`root`), what is kept before and
   * after it, and the last name that gets numbered.
   */
  datatype NamespaceLayout = NamespaceLayout(root: string, start: string, name: string, end: string)

  /** `current_namespace()`: Maya's current namespace with a trailing `:`. */
  function CurrentRoot(current: string): string {
    if EndsWith(current, ":") then current else current + ":"
  }

  /**
   * The layout `unique_namespace` sets up, as written: a nested absolute
   * namespace (`:a:x`) gets `:` from the absolute root and again from
   * `start`, so its root is `::a:`.
   */
  function LayoutAsWritten(namespace: string, current: string): NamespaceLayout {
    var absolute := StartsWith(namespace, ":");
    var root := if absolute then ":" else CurrentRoot(current);
    var start := if absolute then ":" else "";
    var end := if EndsWith(namespace, ":") then ":" else "";
    var ns := Strip(namespace, {':'});
    if ':' in ns then
      var start' := start + BeforeLast(ns, ':') + ":";
      NamespaceLayout(root + start', start', AfterLast(ns, ':'), end)
    else NamespaceLayout(root, start, ns, end)
  }

  /**
   * The layout with the root it evidently means: the absolute namespace
   * the unique name is created under.  For an absolute namespace that is
   * `start` itself, for a relative one the current namespace then `start`.
   */
  function Layout(namespace: string, current: string): (l: NamespaceLayout)
    ensures StartsWith(namespace, ":") ==> l.root == l.start && |l.start| > 0 && l.start[0] == ':'
    ensures !StartsWith(namespace, ":") ==> l.root == CurrentRoot(current) + l.start
    ensures ':' !in l.name
    ensures l.end == if EndsWith(namespace, ":") then ":" else ""
  {
    var absolute := StartsWith(namespace, ":");
    var start := if absolute then ":" else "";
    var end := if EndsWith(namespace, ":") then ":" else "";
    var base := if absolute then "" else CurrentRoot(current);
    var l := LayoutUnder(base, start, Strip(namespace, {':'}), end);
    EmptyLeft(l.start);
    l
  }

  /** The layout of the stripped namespace `ns` under `base`, after `start`. */
  function LayoutUnder(base: string, start: string, ns: string, end: string): (l: NamespaceLayout)
    ensures l.root == base + l.start
    ensures |start| > 0 ==> |l.start| > 0 && l.start[0] == start[0]
    ensures ':' !in l.name
    ensures l.end == end
  {
    AfterLastFree(ns, ':');
    if ':' in ns then
      var start' := start + BeforeLast(ns, ':') + ":";
      NamespaceLayout(base + start', start', AfterLast(ns, ':'), end)
    else NamespaceLayout(base + start, start, ns, end)
  }

  /** The two layouts differ only in the root of a nested absolute namespace. */
  lemma LayoutAgrees(namespace: string, current: string)
    ensures var w, l := LayoutAsWritten(namespace, current), Layout(namespace, current);
      w.start == l.start && w.name == l.name && w.end == l.end
    ensures !(StartsWith(namespace, ":") && ':' in Strip(namespace, {':'})) ==>
      LayoutAsWritten(namespace, current) == Layout(namespace, current)
  {
  }

  /** A plain name is numbered under the current namespace. */
  lemma LayoutPlain(name: string, current: string)
    requires ':' !in name
    ensures Layout(name, current) == NamespaceLayout(CurrentRoot(current), "", name, "")
  {
    StartsWithChar(name, ':');
    EndsWithChar(name, ':');
    StripNone(name, {':'});
  }

  /** A name with a leading `:` is numbered under the root namespace and keeps its `:`. */
  lemma LayoutAbsolute(name: string, current: string)
    requires |name| > 0 && ':' !in name
    ensures Layout(":" + name, current) == NamespaceLayout(":", ":", name, "")
  {
    StartsWithChar(":" + name, ':');
    EndsWithChar(":" + name, ':');
    StripBetween(":", name, "", {':'});
    assert ":" + name + "" == ":" + name;
  }

  /** A name with a trailing `:` keeps it after the suffix. */
  lemma LayoutTrailing(name: string, current: string)
    requires |name| > 0 && ':' !in name
    ensures Layout(name + ":", current) == NamespaceLayout(CurrentRoot(current), "", name, ":")
  {
    StartsWithChar(name + ":", ':');
    EndsWithChar(name + ":", ':');
    StripBetween("", name, ":", {':'});
    assert "" + name + ":" == name + ":";
  }

  /**
   * `:a:x` is looked up under `::a:` as written, and under the namespace
   * `:a:` it is made in once corrected.
   */
  lemma DoubledRootColon(a: string, x: string, current: string)
    requires |a| > 0 && ':' !in a && |x| > 0 && ':' !in x
    ensures Layout(":" + a + ":" + x, current) == NamespaceLayout(":" + a + ":", ":" + a + ":", x, "")
    ensures LayoutAsWritten(":" + a + ":" + x, current) == NamespaceLayout(":" + (":" + a + ":"), ":" + a + ":", x, "")
  {
    NestedAbsolute(a, x);
    var n, start := ":" + a + ":" + x, ":" + a + ":";
    assert Layout(n, current) == NamespaceLayout("" + start, start, x, "");
    assert "" + start == start;
    assert LayoutAsWritten(n, current) == NamespaceLayout(":" + start, start, x, "");
  }

  /**
   * As written, `unique_namespace(":a:x")` answers `:a:x01` even when that
   * namespace exists: it looks for `::a:x01`, which never does.
   */
  lemma NestedNamespaceReused(a: string, x: string, p: Padding, current: string)
    requires |a| > 0 && ':' !in a && |x| > 0 && ':' !in x
    ensures var n := ":" + a + ":" + x;
      var w, l := LayoutAsWritten(n, current), Layout(n, current);
      var existing := Path(l.root, l.name, p, 1);
      FirstFree(w.root, w.name, p, {existing}, 1) &&
      w.start + Candidate(w.name, p, 1) + w.end == existing
  {
    DoubledRootColon(a, x, current);
    var c := Candidate(x, p, 1);
    var start := ":" + a + ":";
    assert |":" + start + c| != |start + c|;
    assert start + c + "" == start + c;
  }

  /** How `unique_namespace` reads `:a:x`. */
  lemma NestedAbsolute(a: string, x: string)
    requires |a| > 0 && ':' !in a && |x| > 0 && ':' !in x
    ensures StartsWith(":" + a + ":" + x, ":") && !EndsWith(":" + a + ":" + x, ":")
    ensures Strip(":" + a + ":" + x, {':'}) == a + [':'] + x
    ensures var ns := a + [':'] + x; ':' in ns && BeforeLast(ns, ':') == a && AfterLast(ns, ':') == x
  {
    var n := ":" + a + ":" + x;
    var ns := a + [':'] + x;
    assert n == ":" + ns;
    assert StartsWith(n, ":") by {
      StartsWithChar(n, ':');
    }
    assert !EndsWith(n, ":") by {
      EndsWithChar(n, ':');
      assert n[|n| - 1] == x[|x| - 1];
    }
    assert Strip(n, {':'}) == ns by {
      assert ns[0] == a[0] && ns[|ns| - 1] == x[|x| - 1];
      StripBetween(":", ns, "", {':'});
      assert ":" + ns + "" == n;
    }
    assert ':' in ns by {
      assert ns[|a|] == ':';
    }
    RSplitAppend(a, x, ':');
  }

  /** The full path whose existence is checked for iteration `i`. */
  function Path(root: string, name: string, p: Padding, i: nat): string {
    root + Candidate(name, p, i)
  }

  /**
   * Iteration `n` is the first free one: the candidate for `n` does not
   * exist under the root and every earlier candidate does.
   */
  predicate FirstFree(root: string, name: string, p: Padding, taken: set<string>, n: nat) {
    n >= 1 && Path(root, name, p, n) !in taken &&
    forall k :: 1 <= k < n ==> Path(root, name, p, k) in taken
  }

  /** There is only one first free iteration. */
  lemma FirstFreeUnique(root: string, name: string, p: Padding, taken: set<string>, n: nat, m: nat)
    requires FirstFree(root, name, p, taken, n) && FirstFree(root, name, p, taken, m)
    ensures n == m
  {
  }

  lemma SubsetCard<T>(a: set<T>, b: set<T>)
    requires a <= b
    ensures |a| <= |b|
  {
    assert b == a + (b - a);
  }

  /** Different iterations check different paths. */
  lemma PathInjective(root: string, name: string, p: Padding)
    ensures forall i, k :: Path(root, name, p, i) == Path(root, name, p, k) ==> i == k
  {
    forall i, k | Path(root, name, p, i) == Path(root, name, p, k) ensures i == k {
      var x := Path(root, name, p, i);
      assert Candidate(name, p, k) == x[|root|..] == Candidate(name, p, i);
      CandidateInjective(name, p, k, i);
    }
  }

  /** `seen` holds only paths of iterations before `i`. */
  predicate Tried(path: nat -> string, seen: set<string>, i: nat) {
    forall x :: x in seen ==> exists k :: 1 <= k < i && x == path(k)
  }

  lemma TriedStep(path: nat -> string, seen: set<string>, i: nat)
    requires i >= 1 && Tried(path, seen, i)
    requires forall j, k :: path(j) == path(k) ==> j == k
    ensures path(i) !in seen
    ensures Tried(path, seen + {path(i)}, i + 1)
  {
    forall x | x in seen + {path(i)} ensures exists k :: 1 <= k < i + 1 && x == path(k) {
      if x in seen {
        var k :| 1 <= k < i && x == path(k);
        assert 1 <= k < i + 1;
      } else {
        assert x == path(i);
      }
    }
  }

  /**
   * The `while True` loop of `unique_namespace`: the first iteration from 1
   * up whose path is not taken.  It ends because different iterations
   * check different paths and only finitely many are taken.
   */
  method FirstFreeIteration(path: nat -> string, taken: set<string>) returns (n: nat)
    requires forall j, k :: path(j) == path(k) ==> j == k
    ensures n >= 1 && path(n) !in taken
    ensures forall k :: 1 <= k < n ==> path(k) in taken
  {
    n := 1;
    ghost var seen: set<string> := {};
    while path(n) in taken
      invariant n >= 1
      invariant forall k :: 1 <= k < n ==> path(k) in taken
      invariant seen <= taken && |seen| == n - 1
      invariant Tried(path, seen, n)
      decreases |taken| - |seen|
    {
      TriedStep(path, seen, n);
      seen := seen + {path(n)};
      SubsetCard(seen, taken);
      n := n + 1;
    }
  }

  /**
   * `unique_namespace(namespace, format, prefix, suffix)`, with `format`
   * `%0<width>d`: the namespace numbered with the first iteration from 1 up
   * whose name does not exist yet (`taken` holds the node and namespace
   * paths that exist; `current` is Maya's current namespace).
   */
  method UniqueNamespace(namespace: string, p: Padding, current: string, taken: set<string>)
    returns (unique: string)
    ensures var l := LayoutAsWritten(namespace, current);
      exists n :: FirstFree(l.root, l.name, p, taken, n) && unique == l.start + Candidate(l.name, p, n) + l.end
  {
    var l := LayoutAsWritten(namespace, current);
    var path := (k: nat) => Path(l.root, l.name, p, k);
    PathInjective(l.root, l.name, p);
    assert forall j, k :: path(j) == path(k) ==> j == k by {
      forall j, k | path(j) == path(k) ensures j == k {
        assert Path(l.root, l.name, p, j) == Path(l.root, l.name, p, k);
      }
    }
    var n := FirstFreeIteration(path, taken);
    forall k | 1 <= k < n ensures Path(l.root, l.name, p, k) in taken {
      assert path(k) in taken;
    }
    assert path(n) !in taken;
    assert FirstFree(l.root, l.name, p, taken, n);
    unique := l.start + Candidate(l.name, p, n) + l.end;
  }

  /** Python's `"%02d"`, the default format. */
  const DefaultWidth: nat := 2

  /** The parts `get_custom_namespace` cuts its input into. */
  datatype CustomFormat = CustomFormat(base: string, padding: Padding)

  /** The end of the run of `#` that starts at `i`. */
  function HashRunEnd(s: string, i: nat): (e: nat)
    requires i <= |s|
    ensures i <= e <= |s|
    ensures forall j :: i <= j < e ==> s[j] == '#'
    ensures e < |s| ==> s[e] != '#'
    decreases |s| - i
  {
    if i < |s| && s[i] == '#' then HashRunEnd(s, i + 1) else i
  }

  /** `"_"` when the base is empty or starts with a digit, otherwise nothing. */
  function DigitGuard(base: string): string {
    if |base| == 0 || IsDigit(base[0]) then "_" else ""
  }

  function Hashes(n: nat): string {
    seq(n, _ => '#')
  }

  /**
   * `re.split("([#]+)", custom, 1)` and the format it implies: the first
   * run of `#` becomes the padding width and splits base from suffix;
   * without one the width is 2 and there is no suffix.
   */
  function CustomNamespaceFormat(custom: string): (f: CustomFormat)
    ensures '#' !in custom ==> f.base == custom && f.padding.width == DefaultWidth && f.padding.suffix == ""
    ensures '#' in custom ==>
      custom == f.base + Hashes(f.padding.width) + f.padding.suffix &&
      f.padding.width >= 1 && '#' !in f.base &&
      (|f.padding.suffix| == 0 || f.padding.suffix[0] != '#')
    ensures f.padding.prefix == DigitGuard(f.base)
  {
    var k := FindFrom(custom, '#', 0);
    if k < 0 then CustomFormat(custom, Padding(DefaultWidth, DigitGuard(custom), ""))
    else
      var e := HashRunEnd(custom, k);
      HashSplit(custom, k, e);
      CustomFormat(custom[..k], Padding(e - k, DigitGuard(custom[..k]), custom[e..]))
  }

  lemma HashSplit(custom: string, k: nat, e: nat)
    requires k <= e <= |custom|
    requires forall j :: 0 <= j < k ==> custom[j] != '#'
    requires forall j :: k <= j < e ==> custom[j] == '#'
    ensures custom == custom[..k] + Hashes(e - k) + custom[e..]
    ensures '#' !in custom[..k]
  {
    assert custom[k..e] == Hashes(e - k);
    assert custom == custom[..k] + custom[k..e] + custom[e..];
  }

  /** The base, width and suffix of a custom namespace are determined by where its first `#` run is. */
  lemma CustomFormatUnique(custom: string, base: string, width: nat, suffix: string)
    requires custom == base + Hashes(width) + suffix && width >= 1
    requires '#' !in base && (|suffix| == 0 || suffix[0] != '#')
    ensures CustomNamespaceFormat(custom) == CustomFormat(base, Padding(width, DigitGuard(base), suffix))
  {
    assert custom[|base|] == '#';
    var k := FindFrom(custom, '#', 0);
    assert forall j :: 0 <= j < |base| ==> custom[j] == base[j];
    assert k == |base|;
    var e := HashRunEnd(custom, k);
    assert forall j :: |base| <= j < |base| + width ==> custom[j] == '#';
    assert |suffix| > 0 ==> custom[|base| + width] == suffix[0];
    assert e == |base| + width;
    assert custom[..k] == base;
    assert custom[e..] == suffix;
  }

  /** `get_custom_namespace`: the custom format, made unique. */
  method GetCustomNamespace(custom: string, current: string, taken: set<string>) returns (unique: string)
    ensures var f := CustomNamespaceFormat(custom); var l := LayoutAsWritten(f.base, current);
      exists n :: FirstFree(l.root, l.name, f.padding, taken, n) && unique == l.start + Candidate(l.name, f.padding, n) + l.end
  {
    var f := CustomNamespaceFormat(custom);
    unique := UniqueNamespace(f.base, f.padding, current, taken);
  }

  /** `ZeroPad(1, 2)`: the `01` of the documented examples. */
  lemma FirstIterationText()
    ensures ZeroPad(1, 2) == "01"
  {
  }

  /**
   * The `#` run of a custom namespace is replaced by the zero-padded
   * iteration, and a `_` goes first when the base is empty or starts with
   * a digit (`myspace_##_` gives `myspace_01_`, `##_myspace` gives
   * `_01_myspace`).
   */
  lemma CustomNamespaceNumbered(base: string, width: nat, suffix: string, current: string, n: nat)
    requires width >= 1 && '#' !in base && ':' !in base
    requires |suffix| == 0 || suffix[0] != '#'
    ensures var f := CustomNamespaceFormat(base + Hashes(width) + suffix); var l := LayoutAsWritten(f.base, current);
      l.start + Candidate(l.name, f.padding, n) + l.end == DigitGuard(base) + base + ZeroPad(n, width) + suffix
  {
    CustomFormatUnique(base + Hashes(width) + suffix, base, width, suffix);
    LayoutPlain(base, current);
    LayoutAgrees(base, current);
  }

  // ---------------------------------------------------------------------
  // pairwise

  /** `pairwise`: `zip(a, a)` over one iterator, so an odd last element is dropped. */
  function Pairwise<T>(s: seq<T>): (r: seq<(T, T)>)
    ensures |r| == |s| / 2
    ensures forall i :: 0 <= i < |r| ==> r[i] == (s[2 * i], s[2 * i + 1])
    decreases |s|
  {
    if |s| < 2 then [] else [(s[0], s[1])] + Pairwise(s[2..])
  }

  function Unpair<T>(r: seq<(T, T)>): (s: seq<T>)
    decreases |r|
  {
    if |r| == 0 then [] else [r[0].0, r[0].1] + Unpair(r[1..])
  }

  /** Flattening the pairs again gives the input without an odd last element. */
  lemma {:induction false} PairwiseUnpair<T>(s: seq<T>)
    ensures Unpair(Pairwise(s)) == s[..2 * (|s| / 2)]
    decreases |s|
  {
    if |s| >= 2 {
      PairwiseUnpair(s[2..]);
      assert Pairwise(s)[1..] == Pairwise(s[2..]);
      assert s[..2 * (|s| / 2)] == [s[0], s[1]] + s[2..][..2 * (|s[2..]| / 2)];
    }
  }

  // ---------------------------------------------------------------------
  // Long DAG paths

  /** `k` is the position of a `|` that separates a parent from a child. */
  predicate IsParentCut(node: string, k: int) {
    0 < k < |node| && node[k] == '|'
  }

  /** `iter_parents`: the long names of a node's parents, nearest first. */
  function Parents(node: string): seq<string>
    decreases |node|
  {
    var k := LastIndex(node, '|');
    if k <= 0 then [] else [node[..k]] + Parents(node[..k])
  }

  /** The parent of `p|leaf` is `p`, then the parents of `p`. */
  lemma ParentsOfChild(parent: string, leaf: string)
    requires |parent| > 0 && '|' !in leaf
    ensures Parents(parent + "|" + leaf) == [parent] + Parents(parent)
  {
    RSplitAppend(parent, leaf, '|');
    assert parent + "|" + leaf == parent + ['|'] + leaf;
    assert (parent + "|" + leaf)[..|parent|] == parent;
  }

  /** A top-level node (`|name`) or a short name has no parents. */
  lemma ParentsOfTop(name: string)
    requires '|' !in name
    ensures Parents(name) == [] && Parents("|" + name) == []
  {
    assert LastIndex(name, '|') == -1;
    assert LastIndex("|" + name, '|') == 0 by {
      RSplitAppend("", name, '|');
      assert "" + ['|'] + name == "|" + name;
    }
  }

  /** Every parent is the prefix before a separating `|`. */
  lemma {:induction false} ParentsArePrefixes(node: string)
    ensures forall i :: 0 <= i < |Parents(node)| ==>
      IsParentCut(node, |Parents(node)[i]|) && Parents(node)[i] == node[..|Parents(node)[i]|]
    decreases |node|
  {
    var k0 := LastIndex(node, '|');
    if k0 > 0 {
      var p := node[..k0];
      ParentsArePrefixes(p);
      var r, rp := Parents(node), Parents(p);
      assert r == [p] + rp;
      forall i | 1 <= i < |r| ensures IsParentCut(node, |r[i]|) && r[i] == node[..|r[i]|] {
        assert r[i] == rp[i - 1];
        assert IsParentCut(p, |rp[i - 1]|);
      }
    }
  }

  /** Parents come nearest first: each is shorter than the one before. */
  lemma {:induction false} ParentsNearestFirst(node: string)
    ensures forall i, j :: 0 <= i < j < |Parents(node)| ==> |Parents(node)[j]| < |Parents(node)[i]|
    decreases |node|
  {
    var k0 := LastIndex(node, '|');
    if k0 > 0 {
      var p := node[..k0];
      ParentsNearestFirst(p);
      ParentsArePrefixes(p);
      var r, rp := Parents(node), Parents(p);
      assert r == [p] + rp;
      forall i, j | 0 <= i < j < |r| ensures |r[j]| < |r[i]| {
        assert r[j] == rp[j - 1];
        if i > 0 { assert r[i] == rp[i - 1]; }
        else { assert IsParentCut(p, |rp[j - 1]|); }
      }
    }
  }

  /** Every separating `|` gives a parent: no level of the hierarchy is skipped. */
  lemma {:induction false} ParentsComplete(node: string, k: int)
    requires IsParentCut(node, k)
    ensures node[..k] in Parents(node)
    decreases |node|
  {
    var k0 := LastIndex(node, '|');
    if 0 < k0 && k < k0 {
      var p := node[..k0];
      assert IsParentCut(p, k);
      ParentsComplete(p, k);
      assert p[..k] == node[..k];
    }
  }

  /** Some parent of `node` is in `lookup`. */
  predicate HasAncestorIn(node: string, lookup: set<string>) {
    exists p :: p in Parents(node) && p in lookup
  }

  /** The nodes of `nodes`, in order, none of whose parents is in `lookup`. */
  function Highest(nodes: seq<string>, lookup: set<string>): seq<string>
    decreases |nodes|
  {
    if |nodes| == 0 then []
    else
      var last := nodes[|nodes| - 1];
      Highest(nodes[..|nodes| - 1], lookup) + (if HasAncestorIn(last, lookup) then [] else [last])
  }

  /**
   * `get_highest_in_hierarchy` on long names: the nodes that have no parent
   * among the input nodes, in input order.
   */
  method GetHighestInHierarchy(nodes: seq<string>) returns (highest: seq<string>)
    ensures highest == Highest(nodes, set n | n in nodes)
  {
    var lookup := set n | n in nodes;
    highest := [];
    for i := 0 to |nodes|
      invariant highest == Highest(nodes[..i], lookup)
    {
      var node := nodes[i];
      assert nodes[..i + 1][..i] == nodes[..i];
      if !HasAncestorIn(node, lookup) {
        highest := highest + [node];
      }
    }
    assert nodes[..|nodes|] == nodes;
  }

  /** A node is kept exactly when it is an input node with no input node above it. */
  lemma {:induction false} HighestExactly(nodes: seq<string>, lookup: set<string>, x: string)
    ensures x in Highest(nodes, lookup) <==> x in nodes && !HasAncestorIn(x, lookup)
    decreases |nodes|
  {
    if |nodes| > 0 {
      var init := nodes[..|nodes| - 1];
      HighestExactly(init, lookup, x);
      assert nodes == init + [nodes[|nodes| - 1]];
    }
  }

  /**
   * What is kept has no input node above it: no prefix ending before one
   * of its `|` separators is an input node.
   */
  lemma HighestHasNoInputParent(nodes: seq<string>, x: string, k: int)
    requires x in Highest(nodes, set n | n in nodes)
    requires IsParentCut(x, k)
    ensures x[..k] !in nodes
  {
    HighestExactly(nodes, (set n | n in nodes), x);
    ParentsComplete(x, k);
  }

  /** A parent of a parent is a parent. */
  lemma ParentOfParent(x: string, p: string, q: string)
    requires p in Parents(x) && q in Parents(p)
    ensures q in Parents(x)
  {
    ParentsArePrefixes(x);
    ParentsArePrefixes(p);
    var i :| 0 <= i < |Parents(x)| && Parents(x)[i] == p;
    var j :| 0 <= j < |Parents(p)| && Parents(p)[j] == q;
    assert IsParentCut(x, |q|) && x[..|q|] == q;
    ParentsComplete(x, |q|);
  }

  /** Every input node is kept or lies below a kept node. */
  lemma {:induction false} HighestCovers(nodes: seq<string>, x: string)
    requires x in nodes
    ensures x in Highest(nodes, set n | n in nodes) ||
      exists p :: p in Parents(x) && p in Highest(nodes, set n | n in nodes)
    decreases |x|
  {
    var lookup := set n | n in nodes;
    HighestExactly(nodes, lookup, x);
    if HasAncestorIn(x, lookup) {
      var p :| p in Parents(x) && p in lookup;
      ParentsArePrefixes(x);
      HighestCovers(nodes, p);
      if p !in Highest(nodes, lookup) {
        var q :| q in Parents(p) && q in Highest(nodes, lookup);
        ParentOfParent(x, p, q);
        assert q in Parents(x) && q in Highest(nodes, lookup);
      } else {
        assert p in Parents(x) && p in Highest(nodes, lookup);
      }
    }
  }

  // ---------------------------------------------------------------------
  // Frame rates

  /** The whole frame rates Maya offers. */
  const IntFramerates: seq<int> := [
    2, 3, 4, 5, 6, 8, 10, 12, 15, 16, 20, 24, 25, 30, 40, 48, 50, 60, 75, 80,
    90, 100, 120, 125, 150, 200, 240, 250, 300, 375, 400, 500, 600, 750,
    1200, 1500, 2000, 3000, 6000, 48000]

  /**
   * `convert_to_maya_fps` for a whole frame rate: the rate itself when
   * Maya offers it, otherwise the `ValueError` (`None`).
   */
  function ConvertToMayaFps(fps: int): (r: Option<int>)
    ensures r.Some? <==> fps in IntFramerates
    ensures r.Some? ==> r.value == fps && 2 <= fps <= 48000
  {
    if fps in IntFramerates then Some(fps) else None
  }

  // ---------------------------------------------------------------------
  // Component counts

  /**
   * The `[start:end]` that `re.search(r"\[(\d+):(\d+)\]", ...)` finds at
   * the head of `t`.  A digit run cannot give back digits to meet the `:`
   * or `]`, so the greedy runs are the only candidates.
   */
  function RangeStart(t: string): Option<(nat, nat)> {
    if |t| > 0 && t[0] == '[' then
      var n := DigitRun(t[1..]);
      if n >= 1 && n + 1 < |t| && t[n + 1] == ':' then
        var m := DigitRun(t[n + 2..]);
        if m >= 1 && n + 2 + m < |t| && t[n + 2 + m] == ']' then
          DigitRunDigits(t[1..]);
          DigitRunDigits(t[n + 2..]);
          Some((DigitsValue(t[1..n + 1]), DigitsValue(t[n + 2..n + 2 + m])))
        else None
      else None
    else None
  }

  /** The leftmost range at or after `i`. */
  function FirstRange(c: string, i: nat): Option<(nat, nat)>
    requires i <= |c|
    decreases |c| - i
  {
    if i == |c| then None
    else if RangeStart(c[i..]).Some? then RangeStart(c[i..])
    else FirstRange(c, i + 1)
  }

  /** How many entries one component stands for once flattened. */
  function FlattenedLength(c: string): int {
    match FirstRange(c, 0)
    case Some((start, end)) => end - start + 1
    case None => 1
  }

  function SumFlattened(components: seq<string>): int
    decreases |components|
  {
    if |components| == 0 then 0
    else SumFlattened(components[..|components| - 1]) + FlattenedLength(components[|components| - 1])
  }

  /** `len_flattened`: the entries the components stand for, added up. */
  method LenFlattened(components: seq<string>) returns (n: int)
    ensures n == SumFlattened(components)
  {
    n := 0;
    for i := 0 to |components|
      invariant n == SumFlattened(components[..i])
    {
      assert components[..i + 1][..i] == components[..i];
      n := n + FlattenedLength(components[i]);
    }
    assert components[..|components|] == components;
  }

  /** Without `[` no component holds a range. */
  lemma {:induction false} NoRangeFrom(c: string, i: nat)
    requires i <= |c|
    requires forall j :: i <= j < |c| ==> c[j] != '['
    ensures FirstRange(c, i).None?
    decreases |c| - i
  {
    if i < |c| {
      NoRangeFrom(c, i + 1);
    }
  }

  /** Components without ranges count one each. */
  lemma {:induction false} NoRangesCountOne(components: seq<string>)
    requires forall i :: 0 <= i < |components| ==> '[' !in components[i]
    ensures SumFlattened(components) == |components|
    decreases |components|
  {
    if |components| > 0 {
      NoRangesCountOne(components[..|components| - 1]);
      NoRangeFrom(components[|components| - 1], 0);
    }
  }

  /** The text Maya writes for the consecutive components `start..end`. */
  function RangeText(start: nat, end: nat): string {
    "[" + (NatToStr(start) + (":" + (NatToStr(end) + "]")))
  }

  lemma RangeStartOf(t: string, n: nat, m: nat, a: nat, b: nat)
    requires n >= 1 && m >= 1 && n + 2 + m < |t|
    requires t[0] == '[' && t[n + 1] == ':' && t[n + 2 + m] == ']'
    requires DigitRun(t[1..]) == n && DigitRun(t[n + 2..]) == m
    requires forall i :: 1 <= i < n + 1 ==> IsDigit(t[i])
    requires forall i :: n + 2 <= i < n + 2 + m ==> IsDigit(t[i])
    requires DigitsValue(t[1..n + 1]) == a && DigitsValue(t[n + 2..n + 2 + m]) == b
    ensures RangeStart(t) == Some((a, b))
  {
  }

  /** Two digit runs between `[`, `:` and `]` are read as a range. */
  lemma RangeOfDigits(s: string, e: string, rest: string)
    requires |s| >= 1 && forall i :: 0 <= i < |s| ==> IsDigit(s[i])
    requires |e| >= 1 && forall i :: 0 <= i < |e| ==> IsDigit(e[i])
    ensures RangeStart("[" + (s + (":" + (e + ("]" + rest))))) == Some((DigitsValue(s), DigitsValue(e)))
  {
    var t := "[" + (s + (":" + (e + ("]" + rest))));
    var n, m := |s|, |e|;
    assert DigitRun(t[1..]) == n by {
      assert t[1..] == s + (":" + (e + ("]" + rest)));
      DigitRunOf(s, ":" + (e + ("]" + rest)));
    }
    assert DigitRun(t[n + 2..]) == m by {
      assert t[n + 2..] == e + ("]" + rest);
      DigitRunOf(e, "]" + rest);
    }
    assert t[1..n + 1] == s;
    assert t[n + 2..n + 2 + m] == e;
    assert forall i :: 1 <= i < n + 1 ==> IsDigit(t[i]) by {
      forall i | 1 <= i < n + 1 ensures IsDigit(t[i]) {
        assert t[i] == s[i - 1];
      }
    }
    assert forall i :: n + 2 <= i < n + 2 + m ==> IsDigit(t[i]) by {
      forall i | n + 2 <= i < n + 2 + m ensures IsDigit(t[i]) {
        assert t[i] == e[i - n - 2];
      }
    }
    assert t[n + 1] == ':' && t[n + 2 + m] == ']' && n + 2 + m < |t|;
    RangeStartOf(t, n, m, DigitsValue(s), DigitsValue(e));
  }

  /** A written range is read back as the same range. */
  lemma RangeTextParses(start: nat, end: nat, rest: string)
    ensures RangeStart(RangeText(start, end) + rest) == Some((start, end))
  {
    var s, e := NatToStr(start), NatToStr(end);
    assert RangeText(start, end) + rest == "[" + (s + (":" + (e + ("]" + rest))));
    RangeOfDigits(s, e, rest);
    DigitsOfNat(start);
    DigitsOfNat(end);
  }

  /** The search passes over a leading name without `[`. */
  lemma SkipNoBracket(c: string, name: string)
    requires StartsWith(c, name) && '[' !in name
    ensures FirstRange(c, 0) == FirstRange(c, |name|)
  {
    var i := |name|;
    while i > 0
      invariant 0 <= i <= |name|
      invariant FirstRange(c, i) == FirstRange(c, |name|)
    {
      i := i - 1;
      assert c[i..][0] == name[i];
    }
  }

  /** A range written after a name without `[` counts `end - start + 1` entries. */
  lemma RangeCounts(name: string, start: nat, end: nat, rest: string)
    requires '[' !in name
    ensures FlattenedLength(name + (RangeText(start, end) + rest)) == end - start + 1
  {
    var c := name + (RangeText(start, end) + rest);
    SkipNoBracket(c, name);
    assert c[|name|..] == RangeText(start, end) + rest;
    RangeTextParses(start, end, rest);
  }

  // ---------------------------------------------------------------------
  // .xgen files

  /** The keys the regex alternates over: an empty dict gives the empty group `()`. */
  function XgenKeys(data: Entries<string>): seq<string> {
    if |data| == 0 then [""] else Keys(data)
  }

  /** The first key (in dict order) whose `\t<key>\t\t` starts the line. */
  function MatchedKey(line: string, keys: seq<string>): (r: Option<string>)
    ensures r.Some? ==> r.value in keys && StartsWith(line, "\t" + r.value + "\t\t")
    ensures r.None? ==> forall k :: k in keys ==> !StartsWith(line, "\t" + k + "\t\t")
    decreases |keys|
  {
    if |keys| == 0 then None
    else if StartsWith(line, "\t" + keys[0] + "\t\t") then Some(keys[0])
    else MatchedKey(line, keys[1..])
  }

  /** One line after `write_xgen_file`; `None` is the `KeyError` of `data[key]`. */
  function XgenLine(data: Entries<string>, line: string): Option<string> {
    match MatchedKey(line, XgenKeys(data))
    case None => Some(line)
    case Some(key) =>
      match Get(data, key)
      case None => None
      case Some(value) => Some("\t" + key + "\t\t" + value + "\n")
  }

  /**
   * `write_xgen_file` on the file's lines: a line that starts with
   * `\t<key>\t\t` for a key of `data` is replaced with that key and its
   * value; other lines are kept.
   */
  method WriteXgen(data: Entries<string>, lines: seq<string>) returns (r: Option<seq<string>>)
    ensures r.Some? <==> forall i :: 0 <= i < |lines| ==> XgenLine(data, lines[i]).Some?
    ensures r.Some? ==> |r.value| == |lines|
    ensures r.Some? ==> forall i :: 0 <= i < |lines| ==> XgenLine(data, lines[i]) == Some(r.value[i])
  {
    var out: seq<string> := [];
    for i := 0 to |lines|
      invariant |out| == i
      invariant forall j :: 0 <= j < i ==> XgenLine(data, lines[j]) == Some(out[j])
    {
      var line := XgenLine(data, lines[i]);
      if line.None? {
        return None;
      }
      out := out + [line.value];
    }
    r := Some(out);
  }

  /** With at least one key every line can be written: the lookup always finds its key. */
  lemma XgenNeverFails(data: Entries<string>, line: string)
    requires |data| > 0
    ensures XgenLine(data, line).Some?
  {
    var m := MatchedKey(line, XgenKeys(data));
    if m.Some? {
      var i :| 0 <= i < |data| && Keys(data)[i] == m.value;
      assert HasKey(data, m.value);
    }
  }

  /** A line for a key of `data` gets that key's value; a line for none is kept. */
  lemma XgenReplaces(data: Entries<string>, key: string, value: string, tail: string)
    requires UniqueKeys(data) && |data| > 0
    requires forall k :: k in Keys(data) ==> !StartsWith("\t" + key + "\t\t" + tail, "\t" + k + "\t\t") || k == key
    requires (key, value) in data
    ensures XgenLine(data, "\t" + key + "\t\t" + tail) == Some("\t" + key + "\t\t" + value + "\n")
  {
    var line := "\t" + key + "\t\t" + tail;
    var i :| 0 <= i < |data| && data[i] == (key, value);
    assert Keys(data)[i] == key;
    assert StartsWith(line, "\t" + key + "\t\t");
    var m := MatchedKey(line, XgenKeys(data));
    assert m == Some(key);
    GetUnique(data, key, value);
  }

  lemma GetUnique(data: Entries<string>, key: string, value: string)
    requires UniqueKeys(data) && (key, value) in data
    ensures Get(data, key) == Some(value)
  {
    var i :| 0 <= i < |data| && data[i] == (key, value);
    var v := Get(data, key).value;
    var j :| 0 <= j < |data| && data[j] == (key, v);
    if i != j {
      if i < j { assert data[i].0 != data[j].0; } else { assert data[j].0 != data[i].0; }
    }
  }

  /** Lines that do not start with a tab are never touched. */
  lemma XgenKeepsUntabbed(data: Entries<string>, line: string)
    requires |line| == 0 || line[0] != '\t'
    ensures XgenLine(data, line) == Some(line)
  {
  }

  /** With an empty dict a line starting with three tabs is looked up under `""` and fails. */
  lemma XgenEmptyDataFails(tail: string)
    ensures XgenLine([], "\t\t\t" + tail).None?
  {
    assert StartsWith("\t\t\t" + tail, "\t" + "" + "\t\t");
  }
}

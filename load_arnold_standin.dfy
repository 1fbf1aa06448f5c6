/**
 * The Arnold standin loader's path handling: the proxy file that sits
 * beside the published file, the string-replace operator that swaps the
 * proxy name back to the published one at render time, the node type the
 * operator selects, and which of the two paths the standin reads.
 */
module LoadArnoldStandin {
  import opened Strs
  import opened PosixPath

  const ProxySuffix: string := "_proxy"

  /** The text of a basename before its first `.`. */
  function Stem(basename: string): string {
    Split(basename, '.')[0]
  }

  /**
   * `_get_proxy_path`: the basename with `_proxy` after its first
   * dot-part, and that name joined with `/` onto the path's directory.
   */
  function ProxyPath(path: string): (r: (string, string))
    ensures r.1 == Dirname(path) + "/" + r.0
  {
    var parts := Split(Basename(path), '.');
    var proxyBasename := parts[0] + ProxySuffix + "." + Join(parts[1..], ".");
    var pieces := [Dirname(path), proxyBasename];
    assert pieces[1..] == [proxyBasename];
    assert Join(pieces[1..], "/") == proxyBasename;
    (proxyBasename, Join(pieces, "/"))
  }

  /**
   * The proxy basename is the basename with `_proxy` inserted before its
   * first `.`; a basename without a `.` gets `_proxy.` appended.
   */
  lemma ProxyInsertsSuffix(path: string)
    ensures var b := Basename(path);
      var rest := Join(Split(b, '.')[1..], ".");
      '.' in b ==> b == Stem(b) + "." + rest && ProxyPath(path).0 == Stem(b) + ProxySuffix + "." + rest
    ensures '.' !in Basename(path) ==> ProxyPath(path).0 == Basename(path) + ProxySuffix + "."
  {
    var b := Basename(path);
    var parts := Split(b, '.');
    JoinSplit(b, '.');
    SplitCount(b, '.');
    if '.' !in b {
      SplitFree(b, '.');
      assert parts[1..] == [];
    }
  }

  /** `_update_operators`: the operator's match and replace strings. */
  function OperatorStrings(proxyBasename: string, path: string): (r: (string, string))
  {
    (Stem(proxyBasename), Stem(Basename(path)))
  }

  /**
   * The operator matches the proxy's stem and replaces it with the
   * published file's stem, so it turns the proxy basename back into the
   * published basename.
   */
  lemma OperatorUndoesProxy(path: string)
    ensures var (matchText, replaceText) := OperatorStrings(ProxyPath(path).0, path);
      matchText == Stem(Basename(path)) + ProxySuffix && replaceText == Stem(Basename(path))
  {
    var b := Basename(path);
    var parts := Split(b, '.');
    SplitPartsFree(b, '.');
    var rest := Join(parts[1..], ".");
    assert parts[0] + ProxySuffix + "." + rest == (parts[0] + ProxySuffix) + ['.'] + rest;
    SplitPrefix(parts[0] + ProxySuffix, rest, '.');
  }

  /** The proxy sits in the published file's directory (when that is not the root). */
  lemma ProxyBesidePublished(path: string)
    requires Dirname(path) != "" && Dirname(path)[|Dirname(path)| - 1] != '/'
    ensures Dirname(ProxyPath(path).1) == Dirname(path)
    ensures Basename(ProxyPath(path).1) == ProxyPath(path).0
  {
    var b := Basename(path);
    var parts := Split(b, '.');
    AfterLastFree(path, '/');
    SplitPartsFree(b, '.');
    assert forall i :: 0 <= i < |parts| ==> '/' !in parts[i] by {
      SplitNoNewChar(b, '.', '/');
    }
    JoinExcludes(parts[1..], ".", '/');
    SplitPathAt(Dirname(path), ProxyPath(path).0);
  }

  /** A part of `s` split at `c` holds only characters of `s`. */
  lemma {:induction false} SplitNoNewChar(s: string, c: char, d: char)
    requires d !in s
    ensures forall i :: 0 <= i < |Split(s, c)| ==> d !in Split(s, c)[i]
  {
    JoinSplit(s, c);
    forall i | 0 <= i < |Split(s, c)| ensures d !in Split(s, c)[i] {
      if d in Split(s, c)[i] {
        PartInJoin(Split(s, c), [c], i, d);
      }
    }
  }

  lemma {:induction false} PartInJoin(parts: seq<string>, sep: string, i: nat, d: char)
    requires i < |parts| && d in parts[i]
    ensures d in Join(parts, sep)
    decreases |parts|
  {
    if |parts| > 1 && i > 0 {
      PartInJoin(parts[1..], sep, i - 1, d);
    }
  }

  /** The node type the operator's selection names: Alembic files are `alembic`, the rest `procedural`. */
  function SelectionNodeType(path: string): (r: string)
    ensures r == "alembic" <==> EndsWith(path, ".abc")
    ensures r == "procedural" <==> !EndsWith(path, ".abc")
  {
    if EndsWith(path, ".abc") then "alembic" else "procedural"
  }

  /** The operator's `selection` expression. */
  function Selection(path: string): string {
    "*.(@node=='" + SelectionNodeType(path) + "')"
  }

  /** `_setup_proxy` and `update`: the standin reads the proxy only when it exists. */
  function DsoPath(path: string, proxyExists: bool): (r: string)
    ensures proxyExists ==> r == ProxyPath(path).1
    ensures !proxyExists ==> r == path
  {
    if proxyExists then ProxyPath(path).1 else path
  }

  /** The highest multi index `get_next_free_multi_index` tries, plus one. */
  const MultiIndexLimit: nat := 10000000

  /**
   * `get_next_free_multi_index`: the first index without an incoming
   * connection, or None when all of the first ten million have one.
   */
  method NextFreeMultiIndex(connected: nat -> bool) returns (r: Option<nat>)
    ensures r.Some? ==> r.value < MultiIndexLimit && !connected(r.value)
    ensures r.Some? ==> forall j :: 0 <= j < r.value ==> connected(j)
    ensures r.None? ==> forall j :: 0 <= j < MultiIndexLimit ==> connected(j)
  {
    for index := 0 to MultiIndexLimit
      invariant forall j :: 0 <= j < index ==> connected(j)
    {
      if !connected(index) {
        return Some(index);
      }
    }
    return None;
  }
}

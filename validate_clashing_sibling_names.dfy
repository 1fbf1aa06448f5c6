/**
 * The clashing sibling names validator: with namespaces stripped from
 * every level of a node path, two different instance nodes must not end up
 * with the same path; the clashing nodes are reported by their highest
 * members in the hierarchy.
 */
module ValidateClashingSiblingNames {
  import opened Strs
  import opened MayaLib

  /** The name with its namespaces dropped: the text after its last `:`. */
  function StripLevel(name: string): string {
    AfterLast(name, ':')
  }

  /** `StripLevel` applied to every level. */
  function StripLevels(levels: seq<string>): (r: seq<string>)
    ensures |r| == |levels|
  {
    if |levels| == 0 then [] else [StripLevel(levels[0])] + StripLevels(levels[1..])
  }

  lemma {:induction false} StripLevelsAt(levels: seq<string>, i: nat)
    requires i < |levels|
    ensures StripLevels(levels)[i] == StripLevel(levels[i])
    decreases i
  {
    if i > 0 {
      StripLevelsAt(levels[1..], i - 1);
    }
  }

  /** The level separator of a node path. */
  const Pipe: string := ['|']

  /** `remove_namespace`: every `|`-separated level loses its namespaces. */
  function RemoveNamespace(path: string): string {
    Join(StripLevels(Split(path, '|')), Pipe)
  }

  /** A stripped level holds neither `|` (when the level had none) nor `:`. */
  lemma StripLevelFree(name: string)
    ensures ':' !in StripLevel(name)
    ensures '|' !in name ==> '|' !in StripLevel(name)
    ensures ':' !in name ==> StripLevel(name) == name
  {
    AfterLastFree(name, ':');
  }

  /** The levels of the result are the stripped levels of the path. */
  lemma SplitRemoved(path: string)
    ensures Split(RemoveNamespace(path), '|') == StripLevels(Split(path, '|'))
  {
    var parts := Split(path, '|');
    var stripped := StripLevels(parts);
    SplitPartsFree(path, '|');
    forall i | 0 <= i < |stripped| ensures '|' !in stripped[i] {
      StripLevelsAt(parts, i);
      StripLevelFree(parts[i]);
    }
    SplitJoin(stripped, '|');
  }

  /** Stripping keeps the number of `|`, so the depth of the path. */
  lemma KeepsPipeCount(path: string)
    ensures multiset(RemoveNamespace(path))['|'] == multiset(path)['|']
  {
    SplitRemoved(path);
    SplitCount(path, '|');
    SplitCount(RemoveNamespace(path), '|');
  }

  /** Every stripped level is free of `:`. */
  lemma StrippedFree(levels: seq<string>)
    ensures forall i :: 0 <= i < |StripLevels(levels)| ==> ':' !in StripLevels(levels)[i]
  {
    forall i | 0 <= i < |levels| ensures ':' !in StripLevels(levels)[i] {
      StripLevelsAt(levels, i);
      StripLevelFree(levels[i]);
    }
  }

  /** The result has no `:` left. */
  lemma NoColonLeft(path: string)
    ensures ':' !in RemoveNamespace(path)
  {
    StrippedFree(Split(path, '|'));
    JoinExcludes(StripLevels(Split(path, '|')), Pipe, ':');
  }

  /** Levels without namespaces are left as they are. */
  lemma {:induction false} StripLevelsId(levels: seq<string>)
    requires forall i :: 0 <= i < |levels| ==> ':' !in levels[i]
    ensures StripLevels(levels) == levels
    decreases |levels|
  {
    if |levels| > 0 {
      var rest := levels[1..];
      assert forall i :: 0 <= i < |rest| ==> ':' !in rest[i] by {
        forall i | 0 <= i < |rest| ensures ':' !in rest[i] {
          assert rest[i] == levels[i + 1];
        }
      }
      StripLevelsId(rest);
      assert ':' !in levels[0];
      StripLevelFree(levels[0]);
      assert levels == [levels[0]] + rest;
    }
  }

  /** Stripping twice is stripping once. */
  lemma Idempotent(path: string)
    ensures RemoveNamespace(RemoveNamespace(path)) == RemoveNamespace(path)
  {
    var once := RemoveNamespace(path);
    SplitRemoved(path);
    StrippedFree(Split(path, '|'));
    StripLevelsId(Split(once, '|'));
    JoinSplit(once, '|');
  }

  /** Stripping one more level appends that level's stripped name. */
  lemma {:induction false} StripLevelsSnoc(levels: seq<string>, level: string)
    ensures StripLevels(levels + [level]) == StripLevels(levels) + [StripLevel(level)]
    decreases |levels|
  {
    if |levels| == 0 {
      assert levels + [level] == [level];
    } else {
      assert (levels + [level])[1..] == levels[1..] + [level];
      StripLevelsSnoc(levels[1..], level);
    }
  }

  /** A child level `ns:name` under any path contributes `|name` to the stripped path. */
  lemma LevelAppended(path: string, ns: string, name: string)
    requires '|' !in ns && '|' !in name && ':' !in name
    ensures RemoveNamespace(path + "|" + (ns + ":" + name)) == RemoveNamespace(path) + "|" + name
  {
    var level := ns + ":" + name;
    assert path + "|" + level == path + ['|'] + level;
    SplitAppendFree(path, level, '|');
    StripLevelsSnoc(Split(path, '|'), level);
    StripsNamespace(ns, name);
    JoinSnoc(StripLevels(Split(path, '|')), name, Pipe);
  }

  /** A namespaced level `ns:name` becomes `name`. */
  lemma StripsNamespace(ns: string, name: string)
    requires ':' !in name
    ensures StripLevel(ns + ":" + name) == name
  {
    RSplitAppend(ns, name, ':');
    assert ns + ":" + name == ns + [':'] + name;
  }

  // ---------------------------------------------------------------------
  // get_invalid

  /** Another node has the same key (the stripped path). */
  predicate Clashes(nodes: seq<string>, n: string, key: string -> string) {
    exists m :: m in nodes && m != n && key(m) == key(n)
  }

  /** The nodes that clash with another one. */
  function Clashing(nodes: seq<string>, key: string -> string): set<string> {
    set n | n in nodes && Clashes(nodes, n, key)
  }

  /** The nodes of `s` none of whose parents is in `s`. */
  function HighestOf(s: set<string>): set<string> {
    set x | x in s && !HasAncestorIn(x, s)
  }

  /**
   * `get_invalid`: nodes grouped by stripped path, every group of more than
   * one node is invalid, then only the highest invalid nodes are kept.
   */
  method GetInvalid(nodes: seq<string>) returns (invalid: set<string>)
    ensures invalid == HighestOf(Clashing(nodes, RemoveNamespace))
  {
    invalid := HighestClashing(nodes, RemoveNamespace);
  }

  /** The clashing nodes reduced to the highest ones when there are any. */
  method HighestClashing(nodes: seq<string>, key: string -> string) returns (invalid: set<string>)
    ensures invalid == HighestOf(Clashing(nodes, key))
  {
    invalid := ClashingNodes(nodes, key);
    if invalid != {} {
      invalid := HighestOf(invalid);
    }
  }

  /** The grouping and the collection of every group of more than one node. */
  method ClashingNodes(nodes: seq<string>, key: string -> string) returns (clashing: set<string>)
    ensures clashing == Clashing(nodes, key)
  {
    var groups := GroupBy(nodes, key);
    clashing := InLargeGroups(groups);
    forall n ensures n in clashing <==> n in Clashing(nodes, key) {
      if n in nodes {
        GroupOfMany(groups[key(n)], n);
        if n in clashing {
          var k :| k in groups && n in groups[k] && |groups[k]| > 1;
          assert k == key(n);
        }
      }
    }
  }

  /** The `defaultdict(set)` from key to the nodes with that key. */
  method GroupBy(nodes: seq<string>, key: string -> string) returns (groups: map<string, set<string>>)
    ensures forall k :: k in groups ==> forall n :: n in groups[k] <==> n in nodes && key(n) == k
    ensures forall n :: n in nodes ==> key(n) in groups
  {
    groups := map[];
    for i := 0 to |nodes|
      invariant forall k :: k in groups ==> forall n :: n in groups[k] <==> n in nodes[..i] && key(n) == k
      invariant forall n :: n in nodes[..i] ==> key(n) in groups
    {
      var k := key(nodes[i]);
      assert nodes[..i + 1] == nodes[..i] + [nodes[i]];
      if k in groups {
        groups := groups[k := groups[k] + {nodes[i]}];
      } else {
        groups := groups[k := {nodes[i]}];
      }
    }
    assert nodes[..|nodes|] == nodes;
  }

  /** `invalid.extend(nodes)` for every group of more than one node. */
  method InLargeGroups(groups: map<string, set<string>>) returns (members: set<string>)
    ensures forall n :: n in members <==> exists k :: k in groups && n in groups[k] && |groups[k]| > 1
  {
    var keys := groups.Keys;
    members := {};
    while keys != {}
      invariant keys <= groups.Keys
      invariant forall n :: n in members <==> exists k :: k in groups && k !in keys && n in groups[k] && |groups[k]| > 1
      decreases keys
    {
      var k :| k in keys;
      if |groups[k]| > 1 {
        members := members + groups[k];
      }
      keys := keys - {k};
    }
  }

  /** A set of more than one element holds another element besides `n`, and conversely. */
  lemma GroupOfMany(s: set<string>, n: string)
    requires n in s
    ensures |s| > 1 <==> exists m :: m in s && m != n
  {
    if exists m :: m in s && m != n {
      var m :| m in s && m != n;
      assert {n, m} <= s;
      assert |{n, m}| == 2;
      SubsetSize({n, m}, s);
    } else {
      assert s == {n};
    }
  }

  lemma SubsetSize(a: set<string>, b: set<string>)
    requires a <= b
    ensures |a| <= |b|
  {
    assert b == a + (b - a);
  }

  /** A parent is strictly shorter than its node. */
  lemma ParentShorter(x: string, p: string)
    requires p in Parents(x)
    ensures |p| < |x|
  {
    ParentsArePrefixes(x);
    var i :| 0 <= i < |Parents(x)| && Parents(x)[i] == p;
  }

  /** Every set with an element has a highest element: one with no parent in the set. */
  lemma {:induction false} HasHighest(s: set<string>, x: string)
    requires x in s
    ensures exists y :: y in s && !HasAncestorIn(y, s)
    decreases |x|
  {
    if HasAncestorIn(x, s) {
      var p :| p in Parents(x) && p in s;
      ParentShorter(x, p);
      HasHighest(s, p);
    }
  }

  /** The result is empty exactly when no two nodes clash. */
  lemma EmptyIffNoClash(nodes: seq<string>, key: string -> string)
    ensures HighestOf(Clashing(nodes, key)) == {} <==> forall n :: n in nodes ==> !Clashes(nodes, n, key)
  {
    if exists n :: n in nodes && Clashes(nodes, n, key) {
      var n :| n in nodes && Clashes(nodes, n, key);
      var c := Clashing(nodes, key);
      assert n in c;
      HasHighest(c, n);
      var y :| y in c && !HasAncestorIn(y, c);
      assert y in HighestOf(c);
    }
  }

  /** Every reported node clashes, and has no clashing node above it. */
  lemma ReportedClash(nodes: seq<string>, key: string -> string, x: string)
    requires x in HighestOf(Clashing(nodes, key))
    ensures x in nodes && Clashes(nodes, x, key)
    ensures forall p :: p in Parents(x) ==> !(p in nodes && Clashes(nodes, p, key))
  { }

  /** Nodes with namespaces that differ only in the namespace clash once stripped. */
  lemma NamespacesClash(nsA: string, nsB: string, name: string)
    requires ':' !in name && '|' !in nsA && '|' !in nsB && '|' !in name && nsA != nsB
    ensures Clashes(["|" + nsA + ":" + name, "|" + nsB + ":" + name], "|" + nsA + ":" + name, RemoveNamespace)
  {
    var a, b := "|" + nsA + ":" + name, "|" + nsB + ":" + name;
    NamespaceDiffers(nsA, nsB, name);
    LeafRemoved(nsA, name);
    LeafRemoved(nsB, name);
    ClashPair(a, b);
  }

  lemma NamespaceDiffers(nsA: string, nsB: string, name: string)
    requires ':' !in name && nsA != nsB
    ensures "|" + nsA + ":" + name != "|" + nsB + ":" + name
  {
    var a, b := "|" + nsA + ":" + name, "|" + nsB + ":" + name;
    RSplitAppend("|" + nsA, name, ':');
    RSplitAppend("|" + nsB, name, ':');
    assert a == "|" + nsA + [':'] + name && b == "|" + nsB + [':'] + name;
    assert ("|" + nsA)[1..] == nsA && ("|" + nsB)[1..] == nsB;
  }

  lemma ClashPair(a: string, b: string)
    requires a != b && RemoveNamespace(a) == RemoveNamespace(b)
    ensures Clashes([a, b], a, RemoveNamespace)
  {
    assert b in [a, b];
    ClashWith([a, b], a, b);
  }

  /** A different node with the same stripped path is a clash. */
  lemma ClashWith(nodes: seq<string>, n: string, m: string)
    requires m in nodes && m != n && RemoveNamespace(m) == RemoveNamespace(n)
    ensures Clashes(nodes, n, RemoveNamespace)
  { }

  /** `|ns:name` strips to `|name`. */
  lemma LeafRemoved(ns: string, name: string)
    requires ':' !in name && '|' !in ns && '|' !in name
    ensures RemoveNamespace("|" + ns + ":" + name) == "|" + name
  {
    assert "|" + ns + ":" + name == "|" + (ns + ":" + name);
    StripTop(ns, name);
    JoinTop(name);
  }

  lemma StripTop(ns: string, name: string)
    requires ':' !in name && '|' !in ns && '|' !in name
    ensures StripLevels(Split("|" + (ns + ":" + name), '|')) == ["", name]
  {
    var level := ns + ":" + name;
    TopLevels(level);
    StripsNamespace(ns, name);
    EmptyStripped();
    StripPair("", level, name);
  }

  lemma EmptyStripped()
    ensures StripLevel("") == ""
  { }

  lemma StripPair(a: string, level: string, name: string)
    requires StripLevel(a) == a && StripLevel(level) == name
    ensures StripLevels([a, level]) == [a, name]
  {
    assert [a, level][1..] == [level];
    assert StripLevels([level]) == [name] + StripLevels([]);
  }

  /** A top-level path splits into an empty first level and its name. */
  lemma TopLevels(level: string)
    requires '|' !in level
    ensures Split("|" + level, '|') == ["", level]
  {
    assert "|" + level == "" + ['|'] + level;
    SplitPrefix("", level, '|');
    SplitFree(level, '|');
  }

  lemma JoinTop(name: string)
    ensures Join(["", name], Pipe) == "|" + name
  {
    assert ["", name][1..] == [name];
  }
}

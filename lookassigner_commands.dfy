/**
 * The look assigner's scene queries: the namespace of a node, and grouping
 * the scene's nodes by the folder id their `cbId` (or the ids inside a
 * proxy or standin) starts with.
 */
module LookAssignerCommands {
  import opened Strs

  // ---------------------------------------------------------------------
  // Namespaces

  /**
   * `get_namespace_from_node`: the text of the leaf (after the last `|`)
   * before its last `:`, or `":"`, the root namespace, when it has none.
   */
  function GetNamespaceFromNode(node: string): string {
    var leaf := AfterLast(node, '|');
    if ':' in leaf then BeforeLast(leaf, ':') else ":"
  }

  lemma AfterLastAbsent(s: string, c: char)
    requires c !in s
    ensures AfterLast(s, c) == s
  {
    assert s[0..] == s;
  }

  /** A leaf `namespace:name` under any parents yields its namespace, nested namespaces included. */
  lemma NamespaceOfPath(parents: string, namespace: string, name: string)
    requires '|' !in namespace && '|' !in name && ':' !in name
    ensures GetNamespaceFromNode(parents + "|" + namespace + ":" + name) == namespace
  {
    var leaf := namespace + ":" + name;
    assert parents + "|" + namespace + ":" + name == parents + ['|'] + leaf;
    assert '|' !in leaf by {
      forall j | 0 <= j < |leaf| ensures leaf[j] != '|' {
        if j < |namespace| { assert leaf[j] == namespace[j]; }
        else if j > |namespace| { assert leaf[j] == name[j - |namespace| - 1]; }
      }
    }
    RSplitAppend(parents, leaf, '|');
    assert leaf == namespace + [':'] + name;
    RSplitAppend(namespace, name, ':');
    assert leaf[|namespace|] == ':';
    assert AfterLast(parents + ['|'] + leaf, '|') == leaf;
  }

  /** A leaf without a namespace is in the root namespace `":"`, whatever its parents. */
  lemma RootNamespace(parents: string, name: string)
    requires '|' !in name && ':' !in name
    ensures GetNamespaceFromNode(parents + "|" + name) == ":"
    ensures GetNamespaceFromNode(name) == ":"
  {
    assert parents + "|" + name == parents + ['|'] + name;
    RSplitAppend(parents, name, '|');
    AfterLastAbsent(name, '|');
  }

  /** The DAG parents never matter: a long name has the namespace of its leaf. */
  lemma ParentsIgnored(parents: string, leaf: string)
    requires '|' !in leaf
    ensures GetNamespaceFromNode(parents + "|" + leaf) == GetNamespaceFromNode(leaf)
  {
    assert parents + "|" + leaf == parents + ['|'] + leaf;
    RSplitAppend(parents, leaf, '|');
    AfterLastAbsent(leaf, '|');
  }

  // ---------------------------------------------------------------------
  // Grouping by folder id

  /**
   * A node as `create_folder_id_hash` sees it: a reference with the nodes it
   * brings in, a V-Ray proxy or an Arnold standin with the ids read from its
   * cache, or any other node with its `cbId`, if it has one.
   */
  datatype SceneNode =
    | Plain(name: string, id: Option<string>)
    | Reference(name: string, members: seq<SceneNode>)
    | VRayProxy(name: string, id: Option<string>, cacheIds: seq<string>)
    | Standin(name: string, standinIds: seq<string>)

  /** `cbId.split(":")[0]`: the folder part of an id. */
  function FolderOf(id: string): string {
    Split(id, ':')[0]
  }

  lemma FolderOfId(folder: string, rest: string)
    requires ':' !in folder
    ensures FolderOf(folder + ":" + rest) == folder
  {
    assert folder + ":" + rest == folder + [':'] + rest;
    SplitPrefix(folder, rest, ':');
  }

  type Hash = map<string, seq<string>>

  /** `node_id_hash[folder].append(name)` on a default dict. */
  function Add(h: Hash, folder: string, name: string): Hash {
    h[folder := (if folder in h then h[folder] else []) + [name]]
  }

  function AddAll(h: Hash, ids: seq<string>, name: string): Hash
    decreases |ids|
  {
    if |ids| == 0 then h else Add(AddAll(h, ids[..|ids| - 1], name), FolderOf(ids[|ids| - 1]), name)
  }

  /** `node_id_hash[folder] += ref_nodes` for every folder of a reference's hash. */
  function Merge(h: Hash, g: Hash): Hash {
    map k | k in h.Keys + g.Keys :: (if k in h then h[k] else []) + (if k in g then g[k] else [])
  }

  function Size(node: SceneNode): nat {
    match node
    case Reference(_, members) => 1 + SizeAll(members)
    case _ => 1
  }

  function SizeAll(nodes: seq<SceneNode>): nat
    decreases nodes
  {
    if |nodes| == 0 then 0 else SizeAll(nodes[..|nodes| - 1]) + Size(nodes[|nodes| - 1])
  }

  lemma {:induction false} SizePrefix(nodes: seq<SceneNode>, i: nat)
    requires i <= |nodes|
    ensures SizeAll(nodes[..i]) <= SizeAll(nodes)
    decreases |nodes|
  {
    if i < |nodes| {
      var init := nodes[..|nodes| - 1];
      assert nodes[..i] == init[..i];
      SizePrefix(init, i);
    } else {
      assert nodes[..i] == nodes;
    }
  }

  /** One node of the loop, with `vrayLoaded` standing for the V-Ray plugin being loaded. */
  function AddNode(h: Hash, node: SceneNode, vrayLoaded: bool): Hash
    decreases Size(node), 0
  {
    match node
    case Reference(_, members) => Merge(h, FolderIdHash(members, vrayLoaded))
    case VRayProxy(name, id, cacheIds) =>
      if vrayLoaded then AddAll(h, cacheIds, name)
      else if id.None? then h
      else Add(h, FolderOf(id.value), name)
    case Standin(name, standinIds) => AddAll(h, standinIds, name)
    case Plain(name, id) => if id.None? then h else Add(h, FolderOf(id.value), name)
  }

  /** `create_folder_id_hash`: the node names per folder id. */
  function FolderIdHash(nodes: seq<SceneNode>, vrayLoaded: bool): Hash
    decreases SizeAll(nodes), 1
  {
    if |nodes| == 0 then map[]
    else
      var init := nodes[..|nodes| - 1];
      SizePrefix(nodes, |nodes| - 1);
      AddNode(FolderIdHash(init, vrayLoaded), nodes[|nodes| - 1], vrayLoaded)
  }

  /** The loop of `create_folder_id_hash`, recursing into references. */
  method CreateFolderIdHash(nodes: seq<SceneNode>, vrayLoaded: bool) returns (h: Hash)
    ensures h == FolderIdHash(nodes, vrayLoaded)
    decreases SizeAll(nodes)
  {
    h := map[];
    for i := 0 to |nodes|
      invariant h == FolderIdHash(nodes[..i], vrayLoaded)
    {
      assert nodes[..i + 1][..i] == nodes[..i];
      match nodes[i] {
        case Reference(_, members) =>
          assert SizeAll(members) < SizeAll(nodes) by {
            SizePrefix(nodes, i + 1);
          }
          var refHash := CreateFolderIdHash(members, vrayLoaded);
          h := Merge(h, refHash);
        case VRayProxy(name, id, cacheIds) =>
          if vrayLoaded {
            h := AddIds(h, cacheIds, name);
          } else if id.Some? {
            h := Add(h, FolderOf(id.value), name);
          }
        case Standin(name, standinIds) =>
          h := AddIds(h, standinIds, name);
        case Plain(name, id) =>
          if id.None? {
            continue;
          }
          h := Add(h, FolderOf(id.value), name);
      }
    }
    assert nodes[..|nodes|] == nodes;
  }

  /** `for id in ids: node_id_hash[id.split(":")[0]].append(node)`. */
  method AddIds(h0: Hash, ids: seq<string>, name: string) returns (h: Hash)
    ensures h == AddAll(h0, ids, name)
  {
    h := h0;
    for i := 0 to |ids|
      invariant h == AddAll(h0, ids[..i], name)
    {
      assert ids[..i + 1][..i] == ids[..i];
      h := Add(h, FolderOf(ids[i]), name);
    }
    assert ids[..|ids|] == ids;
  }

  // ---------------------------------------------------------------------
  // Grouping ordinary nodes, by an independent definition

  predicate InFolder(node: SceneNode, folder: string) {
    node.Plain? && node.id.Some? && FolderOf(node.id.value) == folder
  }

  /** The names of the ordinary nodes whose id lies in `folder`, in scene order. */
  function Members(nodes: seq<SceneNode>, folder: string): seq<string>
    decreases |nodes|
  {
    if |nodes| == 0 then []
    else Members(nodes[..|nodes| - 1], folder) + (if InFolder(nodes[|nodes| - 1], folder) then [nodes[|nodes| - 1].name] else [])
  }

  predicate AllPlain(nodes: seq<SceneNode>) {
    forall i :: 0 <= i < |nodes| ==> nodes[i].Plain?
  }

  /**
   * For ordinary nodes each folder holds exactly the names of the nodes whose
   * id starts with it, in order, and a folder is a key exactly when it has
   * one; nodes without an id appear nowhere.
   */
  lemma {:induction false} PlainGrouping(nodes: seq<SceneNode>, vrayLoaded: bool, folder: string)
    requires AllPlain(nodes)
    ensures var h := FolderIdHash(nodes, vrayLoaded);
      (folder in h <==> Members(nodes, folder) != []) &&
      (folder in h ==> h[folder] == Members(nodes, folder))
    decreases |nodes|
  {
    if |nodes| > 0 {
      var init := nodes[..|nodes| - 1];
      assert forall i :: 0 <= i < |init| ==> init[i] == nodes[i];
      PlainGrouping(init, vrayLoaded, folder);
      var h := FolderIdHash(init, vrayLoaded);
      var last := nodes[|nodes| - 1];
      assert FolderIdHash(nodes, vrayLoaded) == AddNode(h, last, vrayLoaded);
    }
  }

  /** A node without an id changes nothing. */
  lemma NoIdSkipped(nodes: seq<SceneNode>, name: string, vrayLoaded: bool)
    ensures FolderIdHash(nodes + [Plain(name, None)], vrayLoaded) == FolderIdHash(nodes, vrayLoaded)
  {
    assert (nodes + [Plain(name, None)])[..|nodes|] == nodes;
  }

  /** A reference contributes its own grouping, key by key, after what came before. */
  lemma ReferenceMerged(nodes: seq<SceneNode>, name: string, members: seq<SceneNode>, vrayLoaded: bool, folder: string)
    ensures var before := FolderIdHash(nodes, vrayLoaded);
      var inner := FolderIdHash(members, vrayLoaded);
      var after := FolderIdHash(nodes + [Reference(name, members)], vrayLoaded);
      (folder in after <==> folder in before || folder in inner) &&
      (folder in after ==> after[folder] == (if folder in before then before[folder] else []) + (if folder in inner then inner[folder] else []))
  {
    assert (nodes + [Reference(name, members)])[..|nodes|] == nodes;
  }
}

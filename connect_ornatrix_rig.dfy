/**
 * The "Connect Ornatrix Rig" inventory action: with exactly one Alembic
 * animation or pointcache container and some Ornatrix rig containers
 * selected, it reads each rig's `.rigsettings` file and loads the rig's
 * grooms onto the matching nodes of the animation's namespace.
 */
module ConnectOrnatrixRig {
  import opened Strs
  import opened PosixPath

  /** `get_node_name`: the text after the last `|`, then after the last `:`. */
  function GetNodeName(path: string): string {
    AfterLast(AfterLast(path, '|'), ':')
  }

  /** The node name has neither parents nor a namespace left. */
  lemma NodeNameBare(path: string)
    ensures '|' !in GetNodeName(path) && ':' !in GetNodeName(path)
  {
    var leaf := AfterLast(path, '|');
    AfterLastFree(path, '|');
    AfterLastFree(leaf, ':');
    assert GetNodeName(path) == leaf[|leaf| - |GetNodeName(path)|..];
  }

  /** Taking the node name of a node name changes nothing. */
  lemma NodeNameIdempotent(path: string)
    ensures GetNodeName(GetNodeName(path)) == GetNodeName(path)
  {
    var n := GetNodeName(path);
    NodeNameBare(path);
    AfterLastAbsent(n, ':');
    AfterLastAbsent(n, '|');
  }

  lemma AfterLastAbsent(s: string, c: char)
    requires c !in s
    ensures AfterLast(s, c) == s
  {
    assert LastIndex(s, c) == -1;
  }

  /** The doctests' shape: parents and namespaces in front of a bare leaf are dropped. */
  lemma NodeNameOfPath(parents: string, namespaces: string, leaf: string)
    requires '|' !in namespaces && '|' !in leaf && ':' !in leaf
    ensures GetNodeName(parents + "|" + (namespaces + ":" + leaf)) == leaf
  {
    var last := namespaces + ":" + leaf;
    assert '|' !in last;
    RSplitAppend(parents, last, '|');
    RSplitAppend(namespaces, leaf, ':');
  }

  /** A selected container: its namespace, its product type and its representation's path. */
  datatype Container = Container(namespace: string, productType: string, path: string)

  /** The containers of one product type, in selection order. */
  function OfType(containers: seq<Container>, productType: string): (r: seq<Container>)
    ensures forall i :: 0 <= i < |r| ==> r[i].productType == productType
    ensures |r| <= |containers|
  {
    if |containers| == 0 then []
    else
      var rest := OfType(containers[..|containers| - 1], productType);
      if containers[|containers| - 1].productType == productType then rest + [containers[|containers| - 1]] else rest
  }

  /** The animation containers, then the pointcache ones. */
  function SourceContainers(containers: seq<Container>): seq<Container> {
    OfType(containers, "animation") + OfType(containers, "pointcache")
  }

  /** A container is a source exactly when it is an animation or a pointcache. */
  lemma {:induction false} OfTypeExactly(containers: seq<Container>, productType: string, c: Container)
    ensures c in OfType(containers, productType) <==> c in containers && c.productType == productType
    decreases |containers|
  {
    if |containers| > 0 {
      var init := containers[..|containers| - 1];
      OfTypeExactly(init, productType, c);
      assert containers == init + [containers[|containers| - 1]];
    }
  }

  lemma SourcesExactly(containers: seq<Container>, c: Container)
    ensures c in SourceContainers(containers) <==>
      c in containers && (c.productType == "animation" || c.productType == "pointcache")
  {
    OfTypeExactly(containers, "animation", c);
    OfTypeExactly(containers, "pointcache", c);
  }

  /** The suffix of a groom file, which holds two dots. */
  const GroomSuffix: string := ".oxg.zip"

  /**
   * The rig's base name as the action computes it: for a `.oxg.zip`
   * file, the single character eight from the end, or the path without
   * its extension otherwise.
   */
  function BaseAsWritten(mayaFile: string): string {
    if EndsWith(mayaFile, GroomSuffix) then [mayaFile[|mayaFile| - |GroomSuffix|]]
    else Splitext(mayaFile).0
  }

  /** The base name with the two-dot suffix cut off, as the comment beside it says. */
  function BaseIntended(mayaFile: string): string {
    if EndsWith(mayaFile, GroomSuffix) then mayaFile[..|mayaFile| - |GroomSuffix|]
    else Splitext(mayaFile).0
  }

  /** For every `.oxg.zip` rig file the written base is the lone `.` of the suffix. */
  lemma BaseIsDot(mayaFile: string)
    requires EndsWith(mayaFile, GroomSuffix)
    ensures BaseAsWritten(mayaFile) == "."
    ensures BaseAsWritten(mayaFile) + ".rigsettings" == "..rigsettings"
  {
    assert mayaFile[|mayaFile| - |GroomSuffix|..][0] == GroomSuffix[0];
  }

  /** The intended base names the rig file's own groom file and its settings file beside it. */
  lemma BaseIntendedRoundTrip(mayaFile: string)
    requires EndsWith(mayaFile, GroomSuffix)
    ensures BaseIntended(mayaFile) + GroomSuffix == mayaFile
  {
    assert mayaFile[..|mayaFile| - |GroomSuffix|] + mayaFile[|mayaFile| - |GroomSuffix|..] == mayaFile;
  }

  /** One `OxLoadGroom` call: the node selected and the groom file loaded onto it. */
  datatype GroomLoad = GroomLoad(node: string, groomsFile: string)

  /** Why the action stopped with a warning. */
  datatype Warning = NotOneSource | NotAlembic | NoRig | NoTarget

  datatype Outcome = Warned(warning: Warning, loads: seq<GroomLoad>) | Done(loads: seq<GroomLoad>)

  /**
   * The loads for one rig's source nodes, in order, and whether a node
   * without a target stopped the action.
   */
  function NodeLoads(nodes: seq<string>, groomsFile: string, found: string -> bool): (r: (seq<GroomLoad>, bool))
    ensures |r.0| <= |nodes|
  {
    if |nodes| == 0 then ([], false)
    else if !found(GetNodeName(nodes[0])) then ([], true)
    else
      var rest := NodeLoads(nodes[1..], groomsFile, found);
      ([GroomLoad(GetNodeName(nodes[0]), groomsFile)] + rest.0, rest.1)
  }

  /**
   * The loads for the rigs from the first on: a rig without a settings
   * file, or with no source nodes in it, is skipped.
   */
  function RigLoads(rigs: seq<Container>, base: string -> string, settingsExists: string -> bool,
                    sourceNodes: string -> seq<string>, found: string -> bool): (seq<GroomLoad>, bool)
  {
    if |rigs| == 0 then ([], false)
    else
      var b := base(rigs[0].path);
      var settings := b + ".rigsettings";
      if !settingsExists(settings) || |sourceNodes(settings)| == 0 then
        RigLoads(rigs[1..], base, settingsExists, sourceNodes, found)
      else
        var here := NodeLoads(sourceNodes(settings), b + GroomSuffix, found);
        if here.1 then here
        else
          var rest := RigLoads(rigs[1..], base, settingsExists, sourceNodes, found);
          (here.0 + rest.0, rest.1)
  }

  /** Grooms are only loaded onto bare node names the scene has, and from the rig's groom file. */
  lemma {:induction false} NodeLoadsFound(nodes: seq<string>, groomsFile: string, found: string -> bool)
    ensures forall k :: 0 <= k < |NodeLoads(nodes, groomsFile, found).0| ==>
      var l := NodeLoads(nodes, groomsFile, found).0[k];
      found(l.node) && l.groomsFile == groomsFile && ':' !in l.node && '|' !in l.node
    decreases |nodes|
  {
    if |nodes| > 0 && found(GetNodeName(nodes[0])) {
      NodeLoadsFound(nodes[1..], groomsFile, found);
      NodeNameBare(nodes[0]);
    }
  }

  /** A missing target stops the action: no later node of that rig is loaded. */
  lemma {:induction false} StopsAtMissingTarget(before: seq<string>, missing: string, after: seq<string>, groomsFile: string, found: string -> bool)
    requires forall k :: 0 <= k < |before| ==> found(GetNodeName(before[k]))
    requires !found(GetNodeName(missing))
    ensures NodeLoads(before + [missing] + after, groomsFile, found).1
    ensures |NodeLoads(before + [missing] + after, groomsFile, found).0| == |before|
    decreases |before|
  {
    if |before| > 0 {
      assert (before + [missing] + after)[1..] == before[1..] + [missing] + after;
      StopsAtMissingTarget(before[1..], missing, after, groomsFile, found);
    } else {
      assert (before + [missing] + after)[0] == missing;
    }
  }

  /** The action's checks before any rig is read. */
  function Precheck(containers: seq<Container>): Option<Warning> {
    var sources := SourceContainers(containers);
    if |sources| != 1 then Some(NotOneSource)
    else if !EndsWith(Replace(sources[0].path, "\\", "/"), ".abc") then Some(NotAlembic)
    else if |OfType(containers, "oxrig")| == 0 then Some(NoRig)
    else None
  }

  /**
   * `process` as written. The file system (does a settings file exist,
   * which nodes it lists) and the scene (does a node exist in the
   * source's namespace) are parameters.
   */
  method Process(containers: seq<Container>, settingsExists: string -> bool,
                 sourceNodes: string -> seq<string>, found: string -> bool) returns (outcome: Outcome)
    ensures Precheck(containers).Some? ==> outcome == Warned(Precheck(containers).value, [])
    ensures Precheck(containers).None? ==>
      var r := RigLoads(OfType(containers, "oxrig"), BaseAsWritten, settingsExists, sourceNodes, found);
      outcome == if r.1 then Warned(NoTarget, r.0) else Done(r.0)
  {
    var pre := Precheck(containers);
    if pre.Some? {
      return Warned(pre.value, []);
    }
    var rigs := OfType(containers, "oxrig");
    var loads: seq<GroomLoad> := [];
    var i := 0;
    assert rigs[0..] == rigs;
    EmptyLeft(RigLoads(rigs, BaseAsWritten, settingsExists, sourceNodes, found).0);
    while i < |rigs|
      invariant 0 <= i <= |rigs|
      invariant var all := RigLoads(rigs, BaseAsWritten, settingsExists, sourceNodes, found);
        var rest := RigLoads(rigs[i..], BaseAsWritten, settingsExists, sourceNodes, found);
        all == (loads + rest.0, rest.1)
    {
      assert rigs[i..][1..] == rigs[i + 1..];
      assert rigs[i..][0] == rigs[i];
      ghost var next := RigLoads(rigs[i + 1..], BaseAsWritten, settingsExists, sourceNodes, found);
      var base := BaseAsWritten(rigs[i].path);
      var settings := base + ".rigsettings";
      if !settingsExists(settings) || |sourceNodes(settings)| == 0 {
        assert RigLoads(rigs[i..], BaseAsWritten, settingsExists, sourceNodes, found) == next;
        i := i + 1;
        continue;
      }
      var here, stopped := GroomNodes(sourceNodes(settings), base + GroomSuffix, found);
      assert RigLoads(rigs[i..], BaseAsWritten, settingsExists, sourceNodes, found)
          == if stopped then (here, true) else (here + next.0, next.1);
      Assoc(loads, here, next.0);
      loads := loads + here;
      if stopped {
        return Warned(NoTarget, loads);
      }
      i := i + 1;
    }
    AppendEmpty(loads);
    return Done(loads);
  }

  /** The inner loop: each source node's name is looked up and the grooms loaded onto it, until one is missing. */
  method GroomNodes(nodes: seq<string>, groomsFile: string, found: string -> bool) returns (loads: seq<GroomLoad>, stopped: bool)
    ensures (loads, stopped) == NodeLoads(nodes, groomsFile, found)
  {
    loads := [];
    var j := 0;
    assert nodes[0..] == nodes;
    EmptyLeft(NodeLoads(nodes, groomsFile, found).0);
    while j < |nodes|
      invariant 0 <= j <= |nodes|
      invariant var rest := NodeLoads(nodes[j..], groomsFile, found);
        NodeLoads(nodes, groomsFile, found) == (loads + rest.0, rest.1)
    {
      assert nodes[j..][1..] == nodes[j + 1..];
      var name := GetNodeName(nodes[j]);
      if !found(name) {
        assert nodes[j..][0] == nodes[j];
        AppendEmpty(loads);
        return loads, true;
      }
      assert nodes[j..][0] == nodes[j];
      Assoc(loads, [GroomLoad(name, groomsFile)], NodeLoads(nodes[j + 1..], groomsFile, found).0);
      loads := loads + [GroomLoad(name, groomsFile)];
      j := j + 1;
    }
    assert nodes[|nodes|..] == [];
    AppendEmpty(loads);
    return loads, false;
  }

  lemma AppendEmpty<T>(s: seq<T>)
    ensures s + [] == s
  { }
}

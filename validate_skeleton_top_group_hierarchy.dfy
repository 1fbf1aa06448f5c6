/**
 * The skeleton rig top-group validator: every node of the skeleton mesh
 * set must sit at most two levels deep, which in a long name means at most
 * two `|`.
 */
module ValidateSkeletonTopGroupHierarchy {

  /** `node.count("|")`. */
  function Pipes(node: string): nat {
    multiset(node)['|']
  }

  /** `get_non_root_nodes` over long names: those with more than two `|`, in order. */
  function NonRootNodes(nodes: seq<string>): seq<string> {
    if |nodes| == 0 then []
    else
      var rest := NonRootNodes(nodes[..|nodes| - 1]);
      if Pipes(nodes[|nodes| - 1]) > 2 then rest + [nodes[|nodes| - 1]] else rest
  }

  /** A node is returned exactly when it is one of the nodes and has more than two `|`. */
  lemma {:induction false} NonRootExactly(nodes: seq<string>, node: string)
    ensures node in NonRootNodes(nodes) <==> node in nodes && Pipes(node) > 2
    decreases |nodes|
  {
    if |nodes| > 0 {
      var init := nodes[..|nodes| - 1];
      NonRootExactly(init, node);
      assert nodes == init + [nodes[|nodes| - 1]];
    }
  }

  /** The result is the input's nodes at strictly increasing positions `idx`. */
  lemma {:induction false} NonRootInOrder(nodes: seq<string>) returns (idx: seq<nat>)
    ensures |idx| == |NonRootNodes(nodes)|
    ensures forall i :: 0 <= i < |idx| ==> idx[i] < |nodes| && NonRootNodes(nodes)[i] == nodes[idx[i]]
    ensures forall i, j :: 0 <= i < j < |idx| ==> idx[i] < idx[j]
    decreases |nodes|
  {
    if |nodes| == 0 {
      idx := [];
    } else {
      var n := |nodes| - 1;
      idx := NonRootInOrder(nodes[..n]);
      if Pipes(nodes[n]) > 2 {
        idx := idx + [n];
      }
    }
  }

  datatype Outcome = Skipped | Passed | Raised(invalid: seq<string>)

  /**
   * `process`: an inactive optional plugin and an empty skeleton mesh set
   * pass; otherwise it raises when some node is not at the top.
   */
  function Process(active: bool, skeletonMesh: seq<string>): (r: Outcome)
    ensures r.Raised? ==> active && |r.invalid| > 0
    ensures |skeletonMesh| == 0 ==> !r.Raised?
  {
    if !active then Skipped
    else if |skeletonMesh| == 0 then Passed
    else
      var invalid := NonRootNodes(skeletonMesh);
      if |invalid| > 0 then Raised(invalid) else Passed
  }

  /** An active check raises exactly when some skeleton mesh node has more than two `|`. */
  lemma RaisesIff(skeletonMesh: seq<string>)
    ensures Process(true, skeletonMesh).Raised? <==> exists i :: 0 <= i < |skeletonMesh| && Pipes(skeletonMesh[i]) > 2
  {
    if exists i :: 0 <= i < |skeletonMesh| && Pipes(skeletonMesh[i]) > 2 {
      var i :| 0 <= i < |skeletonMesh| && Pipes(skeletonMesh[i]) > 2;
      NonRootExactly(skeletonMesh, skeletonMesh[i]);
    }
    if |NonRootNodes(skeletonMesh)| > 0 {
      NonRootExactly(skeletonMesh, NonRootNodes(skeletonMesh)[0]);
    }
  }
}

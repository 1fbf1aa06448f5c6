/**
 * The look assigner's support for Arnold standins: the visibility bit mask
 * Arnold reads from one integer, narrowing a standin's object paths by id to
 * the children of chosen prefixes, and turning the look's edits into the
 * `aiSetParameter` assignment strings each object path receives.
 */
module LookAssignerStandin {
  import opened Strs
  import opened PyData

  // ---------------------------------------------------------------------
  // The visibility mask

  /** Each Maya visibility attribute and the bit Arnold's `visibility` gives it. */
  const VisibilityBits: seq<(string, nat)> := [
    ("primaryVisibility", 1),
    ("castsShadows", 2),
    ("aiVisibleInDiffuseTransmission", 4),
    ("aiVisibleInSpecularTransmission", 8),
    ("aiVisibleInVolume", 16),
    ("aiVisibleInDiffuseReflection", 32),
    ("aiVisibleInSpecularReflection", 64)
  ]

  /** An attribute hides its ray type when the edit holds it with a falsy value; absent means visible. */
  predicate Hidden(attributes: Entries<Value>, name: string) {
    match Get(attributes, name)
    case Some(v) => !Truthy(v)
    case None => false
  }

  function HiddenBit(attributes: Entries<Value>, k: nat): nat
    requires k < |VisibilityBits|
  {
    if Hidden(attributes, VisibilityBits[k].0) then VisibilityBits[k].1 else 0
  }

  /** The bits cleared by the first `n` visibility attributes. */
  function ClearedBelow(attributes: Entries<Value>, n: nat): nat
    requires n <= |VisibilityBits|
    decreases n
  {
    if n == 0 then 0 else ClearedBelow(attributes, n - 1) + HiddenBit(attributes, n - 1)
  }

  function Mask(attributes: Entries<Value>): int {
    255 - ClearedBelow(attributes, |VisibilityBits|)
  }

  /** `calculate_visibility_mask`: all eight bits set, less each hidden ray type's bit. */
  method CalculateVisibilityMask(attributes: Entries<Value>) returns (mask: int)
    ensures mask == Mask(attributes)
  {
    mask := 255;
    for i := 0 to |VisibilityBits|
      invariant mask == 255 - ClearedBelow(attributes, i)
    {
      var value := GetOr(attributes, VisibilityBits[i].0, VBool(true));
      if Truthy(value) {
        continue;
      }
      mask := mask - VisibilityBits[i].1;
    }
  }

  /**
   * The mask lies between 128 and 255, so bit 128 is always set, and the bit
   * of each visibility attribute is clear exactly when the edit hides it.
   */
  lemma MaskBits(attributes: Entries<Value>)
    ensures 128 <= Mask(attributes) <= 255
    ensures forall k :: 0 <= k < |VisibilityBits| ==>
      (Mask(attributes) / VisibilityBits[k].1 % 2 == 0 <==> Hidden(attributes, VisibilityBits[k].0))
  {
    var v := seq(7, k requires 0 <= k < 7 => if Hidden(attributes, VisibilityBits[k].0) then 0 else 1);
    MaskSum(attributes, v);
    var mask := Mask(attributes);
    forall k | 0 <= k < |VisibilityBits|
      ensures mask / VisibilityBits[k].1 % 2 == 0 <==> Hidden(attributes, VisibilityBits[k].0)
    {
      if k == 0 { BitOf(mask, 1, 64 + v[1] + 2 * v[2] + 4 * v[3] + 8 * v[4] + 16 * v[5] + 32 * v[6], v[0], 0); }
      else if k == 1 { BitOf(mask, 2, 32 + v[2] + 2 * v[3] + 4 * v[4] + 8 * v[5] + 16 * v[6], v[1], v[0]); }
      else if k == 2 { BitOf(mask, 4, 16 + v[3] + 2 * v[4] + 4 * v[5] + 8 * v[6], v[2], v[0] + 2 * v[1]); }
      else if k == 3 { BitOf(mask, 8, 8 + v[4] + 2 * v[5] + 4 * v[6], v[3], v[0] + 2 * v[1] + 4 * v[2]); }
      else if k == 4 { BitOf(mask, 16, 4 + v[5] + 2 * v[6], v[4], v[0] + 2 * v[1] + 4 * v[2] + 8 * v[3]); }
      else if k == 5 { BitOf(mask, 32, 2 + v[6], v[5], v[0] + 2 * v[1] + 4 * v[2] + 8 * v[3] + 16 * v[4]); }
      else { BitOf(mask, 64, 1, v[6], v[0] + 2 * v[1] + 4 * v[2] + 8 * v[3] + 16 * v[4] + 32 * v[5]); }
    }
  }

  /** The mask in binary: bit 128 and the bit of every visible ray type. */
  lemma MaskSum(attributes: Entries<Value>, v: seq<int>)
    requires |v| == 7
    requires forall k :: 0 <= k < 7 ==> v[k] == if Hidden(attributes, VisibilityBits[k].0) then 0 else 1
    ensures Mask(attributes) == 128 + v[0] + 2 * v[1] + 4 * v[2] + 8 * v[3] + 16 * v[4] + 32 * v[5] + 64 * v[6]
  {
    forall k | 0 <= k < 7 ensures HiddenBit(attributes, k) == VisibilityBits[k].1 * (1 - v[k]) { }
    assert ClearedBelow(attributes, 7) == HiddenBit(attributes, 0) + HiddenBit(attributes, 1) + HiddenBit(attributes, 2)
      + HiddenBit(attributes, 3) + HiddenBit(attributes, 4) + HiddenBit(attributes, 5) + HiddenBit(attributes, 6);
  }

  lemma BitOf(x: int, c: int, q: int, b: int, low: int)
    requires c > 0 && 0 <= low < c && (b == 0 || b == 1)
    requires x == c * (2 * q + b) + low
    ensures x / c % 2 == b
  {
    var d := 2 * q + b;
    MulMono(c, d + 1, x / c);
    MulMono(c, x / c + 1, d);
  }

  lemma MulMono(c: int, a: int, b: int)
    requires c > 0
    ensures a <= b ==> c * a <= c * b
  {
    if a <= b {
      assert c * b - c * a == c * (b - a);
    }
  }

  lemma {:induction false} ClearedNone(attributes: Entries<Value>, n: nat)
    requires n <= |VisibilityBits|
    ensures ClearedBelow(attributes, n) == 0 <==> forall k :: 0 <= k < n ==> !Hidden(attributes, VisibilityBits[k].0)
    decreases n
  {
    if n > 0 {
      ClearedNone(attributes, n - 1);
    }
  }

  /** The mask is 255, every ray type visible, exactly when no visibility attribute is falsy; an empty edit gives 255. */
  lemma AllVisible(attributes: Entries<Value>)
    ensures Mask(attributes) == 255 <==> forall k :: 0 <= k < |VisibilityBits| ==> !Hidden(attributes, VisibilityBits[k].0)
    ensures Mask([]) == 255
  {
    ClearedNone(attributes, |VisibilityBits|);
    ClearedNone([], |VisibilityBits|);
  }

  // ---------------------------------------------------------------------
  // Narrowing the ids to selected prefixes

  /** `node.startswith(tuple(prefix + "/" ...))`: the node lies strictly below one of the prefixes. */
  predicate Under(node: string, prefixes: seq<string>) {
    exists p :: p in prefixes && StartsWith(node, p + "/")
  }

  function KeepUnder(nodes: seq<string>, prefixes: seq<string>): (r: seq<string>)
    decreases |nodes|
  {
    if |nodes| == 0 then []
    else
      var last := nodes[|nodes| - 1];
      KeepUnder(nodes[..|nodes| - 1], prefixes) + (if Under(last, prefixes) then [last] else [])
  }

  /** The ids whose paths keep some entry, each with only those paths, in the original order. */
  function Filtered(nodesById: Entries<seq<string>>, prefixes: seq<string>): (r: Entries<seq<string>>)
    decreases |nodesById|
  {
    if |nodesById| == 0 then []
    else
      var last := nodesById[|nodesById| - 1];
      var kept := KeepUnder(last.1, prefixes);
      Filtered(nodesById[..|nodesById| - 1], prefixes) + (if |kept| > 0 then [(last.0, kept)] else [])
  }

  lemma {:induction false} FilteredKeys(nodesById: Entries<seq<string>>, prefixes: seq<string>, k: string)
    requires HasKey(Filtered(nodesById, prefixes), k)
    ensures HasKey(nodesById, k)
    decreases |nodesById|
  {
    var n := |nodesById|;
    var init := nodesById[..n - 1];
    var f := Filtered(init, prefixes);
    var i :| 0 <= i < |Filtered(nodesById, prefixes)| && Filtered(nodesById, prefixes)[i].0 == k;
    if i < |f| {
      assert f[i].0 == k;
      FilteredKeys(init, prefixes, k);
      var j :| 0 <= j < |init| && init[j].0 == k;
      assert nodesById[j].0 == k;
    } else {
      assert nodesById[n - 1].0 == k;
    }
  }

  /**
   * `get_nodes_by_id_filtered` after the ids are read: without prefixes the
   * map is returned as it is; otherwise each id keeps only its paths under a
   * prefix, in place, and an id left with none is popped.
   */
  method GetNodesByIdFiltered(nodesById: Entries<seq<string>>, prefixes: seq<string>) returns (r: Entries<seq<string>>)
    requires UniqueKeys(nodesById)
    ensures |prefixes| == 0 ==> r == nodesById
    ensures |prefixes| > 0 ==> r == Filtered(nodesById, prefixes)
  {
    r := nodesById;
    if |prefixes| == 0 {
      return;
    }
    for i := 0 to |nodesById|
      invariant r == Filtered(nodesById[..i], prefixes) + nodesById[i..]
    {
      var nodes := KeepUnder(nodesById[i].1, prefixes);
      FilterStep(nodesById, prefixes, i);
      if |nodes| > 0 {
        r := Put(r, nodesById[i].0, nodes);
      } else {
        r := Remove(r, nodesById[i].0);
      }
    }
    assert nodesById[..|nodesById|] == nodesById;
    assert nodesById[|nodesById|..] == [];
  }

  /** One id of the loop: its entry is replaced in place, or popped, and the next id is up. */
  lemma FilterStep(nodesById: Entries<seq<string>>, prefixes: seq<string>, i: nat)
    requires UniqueKeys(nodesById) && i < |nodesById|
    ensures var r := Filtered(nodesById[..i], prefixes) + nodesById[i..];
      var id := nodesById[i].0;
      var nodes := KeepUnder(nodesById[i].1, prefixes);
      (if |nodes| > 0 then Put(r, id, nodes) else Remove(r, id)) == Filtered(nodesById[..i + 1], prefixes) + nodesById[i + 1..]
  {
    var id := nodesById[i].0;
    var nodes := KeepUnder(nodesById[i].1, prefixes);
    var done := Filtered(nodesById[..i], prefixes);
    var rest := nodesById[i + 1..];
    assert nodesById[i..] == [nodesById[i]] + rest;
    assert done + nodesById[i..] == done + [nodesById[i]] + rest;
    assert !HasKey(nodesById[..i], id) by {
      forall j | 0 <= j < i ensures nodesById[..i][j].0 != id {
        assert nodesById[..i][j] == nodesById[j];
      }
    }
    if HasKey(done, id) {
      FilteredKeys(nodesById[..i], prefixes, id);
    }
    assert !HasKey(rest, id) by {
      forall j | 0 <= j < |rest| ensures rest[j].0 != id {
        assert rest[j] == nodesById[i + 1 + j];
      }
    }
    assert nodesById[..i + 1][..i] == nodesById[..i];
    if |nodes| > 0 {
      PutMiddle(done, nodesById[i], rest, nodes);
    } else {
      RemoveMiddle(done, nodesById[i], rest);
    }
  }

  /** A path is kept exactly when it was one of the id's paths and lies below a prefix. */
  lemma {:induction false} KeepUnderExactly(nodes: seq<string>, prefixes: seq<string>)
    ensures forall x :: x in KeepUnder(nodes, prefixes) <==> x in nodes && Under(x, prefixes)
    decreases |nodes|
  {
    if |nodes| > 0 {
      var init := nodes[..|nodes| - 1];
      KeepUnderExactly(init, prefixes);
      assert nodes == init + [nodes[|nodes| - 1]];
    }
  }

  /**
   * Every entry of the filtered map is an id of the original map with its
   * paths under the prefixes, and never with an empty list; an id stays
   * exactly when one of its paths lies below a prefix.
   */
  lemma {:induction false} FilteredEntries(nodesById: Entries<seq<string>>, prefixes: seq<string>)
    ensures forall j :: 0 <= j < |Filtered(nodesById, prefixes)| ==>
      Filtered(nodesById, prefixes)[j].1 != [] &&
      exists i :: 0 <= i < |nodesById| && Filtered(nodesById, prefixes)[j] == (nodesById[i].0, KeepUnder(nodesById[i].1, prefixes))
    ensures forall i :: 0 <= i < |nodesById| && KeepUnder(nodesById[i].1, prefixes) != [] ==>
      HasKey(Filtered(nodesById, prefixes), nodesById[i].0)
    decreases |nodesById|
  {
    var n := |nodesById|;
    if n > 0 {
      var init := nodesById[..n - 1];
      FilteredEntries(init, prefixes);
      var f := Filtered(nodesById, prefixes);
      var g := Filtered(init, prefixes);
      forall j | 0 <= j < |f|
        ensures f[j].1 != [] && exists i :: 0 <= i < n && f[j] == (nodesById[i].0, KeepUnder(nodesById[i].1, prefixes))
      {
        if j < |g| {
          assert f[j] == g[j];
          var i :| 0 <= i < |init| && g[j] == (init[i].0, KeepUnder(init[i].1, prefixes));
          assert nodesById[i] == init[i];
        } else {
          assert f[j] == (nodesById[n - 1].0, KeepUnder(nodesById[n - 1].1, prefixes));
        }
      }
      forall i | 0 <= i < n && KeepUnder(nodesById[i].1, prefixes) != []
        ensures HasKey(f, nodesById[i].0)
      {
        if i < n - 1 {
          assert init[i] == nodesById[i];
          var j :| 0 <= j < |g| && g[j].0 == nodesById[i].0;
          assert f[j] == g[j];
        } else {
          assert f[|g|].0 == nodesById[i].0;
        }
      }
    }
  }

  // ---------------------------------------------------------------------
  // Setattr edits

  /** `ATTRIBUTE_MAPPING`: the Arnold parameter each recognised Maya attribute sets. */
  const AttributeMapping: map<string, string> := map[
    "primaryVisibility" := "visibility",
    "castsShadows" := "visibility",
    "receiveShadows" := "receive_shadows",
    "aiSelfShadows" := "self_shadows",
    "aiOpaque" := "opaque",
    "aiMatte" := "matte",
    "aiVisibleInDiffuseTransmission" := "visibility",
    "aiVisibleInSpecularTransmission" := "visibility",
    "aiVisibleInVolume" := "visibility",
    "aiVisibleInDiffuseReflection" := "visibility",
    "aiVisibleInSpecularReflection" := "visibility",
    "aiSubdivUvSmoothing" := "subdiv_uv_smoothing",
    "aiDispHeight" := "disp_height",
    "aiDispPadding" := "disp_padding",
    "aiDispZeroValue" := "disp_zero_value",
    "aiStepSize" := "step_size",
    "aiVolumePadding" := "volume_padding",
    "aiSubdivType" := "subdiv_type",
    "aiSubdivIterations" := "subdiv_iterations"
  ]

  predicate SetsVisibility(name: string) {
    name in AttributeMapping && AttributeMapping[name] == "visibility"
  }

  /**
   * The assignments of the recognised attributes other than visibility, in
   * the edit's order; a string is quoted first and every value then
   * formatted with `str`, which makes each one its repr.
   */
  function PlainAssignments(attributes: Entries<Value>): seq<string>
    decreases |attributes|
  {
    if |attributes| == 0 then []
    else
      var (name, value) := attributes[|attributes| - 1];
      PlainAssignments(attributes[..|attributes| - 1]) +
      (if name in AttributeMapping && !SetsVisibility(name) then [AttributeMapping[name] + "=" + Repr(value)] else [])
  }

  predicate AnyVisibility(attributes: Entries<Value>) {
    exists i :: 0 <= i < |attributes| && SetsVisibility(attributes[i].0)
  }

  /** All assignments of one setattr edit: the plain ones, then one `visibility=<mask>` if any visibility attribute is set. */
  function SetattrAssignments(attributes: Entries<Value>): seq<string> {
    PlainAssignments(attributes) + (if AnyVisibility(attributes) then ["visibility=" + IntToStr(Mask(attributes))] else [])
  }

  const VisibilityKey: string := "visibility="

  lemma PlainNameNotVisibility(name: string, text: string)
    requires name in AttributeMapping && !SetsVisibility(name)
    ensures !StartsWith(AttributeMapping[name] + "=" + text, VisibilityKey)
  {
    var m := AttributeMapping[name];
    var s := m + "=" + text;
    assert s[0] == m[0] && s[1] == m[1];
  }

  lemma {:induction false} PlainNoVisibility(attributes: Entries<Value>)
    ensures forall j :: 0 <= j < |PlainAssignments(attributes)| ==> !StartsWith(PlainAssignments(attributes)[j], VisibilityKey)
    decreases |attributes|
  {
    if |attributes| > 0 {
      var (name, value) := attributes[|attributes| - 1];
      PlainNoVisibility(attributes[..|attributes| - 1]);
      if name in AttributeMapping && !SetsVisibility(name) {
        PlainNameNotVisibility(name, Repr(value));
      }
    }
  }

  /**
   * All visibility attributes of an edit collapse into one assignment: the
   * assignments hold a `visibility=` entry exactly when the edit sets some
   * visibility attribute, never two, and it is the last.
   */
  lemma VisibilityCollapsed(attributes: Entries<Value>)
    ensures var r := SetattrAssignments(attributes);
      ((exists j :: 0 <= j < |r| && StartsWith(r[j], VisibilityKey)) <==> AnyVisibility(attributes)) &&
      (forall j :: 0 <= j < |r| - 1 ==> !StartsWith(r[j], VisibilityKey))
  {
    PlainNoVisibility(attributes);
    var p := PlainAssignments(attributes);
    var r := SetattrAssignments(attributes);
    assert forall j :: 0 <= j < |p| ==> r[j] == p[j];
    if AnyVisibility(attributes) {
      assert StartsWith(r[|p|], VisibilityKey);
    } else {
      assert r == p;
    }
  }

  lemma {:induction false} PlainIgnoresUnknown(attributes: Entries<Value>, name: string, value: Value)
    requires name !in AttributeMapping
    ensures PlainAssignments(attributes + [(name, value)]) == PlainAssignments(attributes)
  {
    assert (attributes + [(name, value)])[..|attributes|] == attributes;
  }

  lemma {:induction false} ClearedIgnoresUnknown(attributes: Entries<Value>, name: string, value: Value, n: nat)
    requires name !in AttributeMapping && n <= |VisibilityBits|
    ensures ClearedBelow(attributes + [(name, value)], n) == ClearedBelow(attributes, n)
    decreases n
  {
    if n > 0 {
      ClearedIgnoresUnknown(attributes, name, value, n - 1);
      var k := VisibilityBits[n - 1].0;
      assert k in AttributeMapping;
      GetAppendOther(attributes, name, value, k);
    }
  }

  lemma GetAppendOther(attributes: Entries<Value>, name: string, value: Value, k: string)
    requires k != name
    ensures Get(attributes + [(name, value)], k) == Get(attributes, k)
  {
    assert (attributes + [(name, value)])[..|attributes|] == attributes;
  }

  /** An attribute the mapping does not know adds nothing, neither an assignment nor a change to the mask. */
  lemma UnknownIgnored(attributes: Entries<Value>, name: string, value: Value)
    requires name !in AttributeMapping
    ensures SetattrAssignments(attributes + [(name, value)]) == SetattrAssignments(attributes)
  {
    var a := attributes + [(name, value)];
    PlainIgnoresUnknown(attributes, name, value);
    ClearedIgnoresUnknown(attributes, name, value, |VisibilityBits|);
    assert AnyVisibility(a) <==> AnyVisibility(attributes) by {
      if AnyVisibility(a) {
        var i :| 0 <= i < |a| && SetsVisibility(a[i].0);
        assert i < |attributes| && a[i] == attributes[i];
      }
      if AnyVisibility(attributes) {
        var i :| 0 <= i < |attributes| && SetsVisibility(attributes[i].0);
        assert a[i] == attributes[i];
      }
    }
  }

  /** Quoting keeps a string apart from the number it spells: `'1'` is not `1`. */
  lemma QuotedStringsDistinct(n: int)
    ensures Repr(VStr(IntToStr(n))) != Repr(VInt(n))
  {
    var quoted := Repr(VStr(IntToStr(n)));
    assert quoted[0] == '\'';
    if n >= 0 {
      assert IsDigit(Repr(VInt(n))[0]);
    } else {
      assert Repr(VInt(n))[0] == '-';
    }
  }

  // ---------------------------------------------------------------------
  // Shading engine edits

  /** The Arnold parameter a shading engine input sets: `shader` for the surface, `disp_map` otherwise. */
  function ShaderKey(attribute: string): string {
    if attribute == "surfaceShader" then "shader" else "disp_map"
  }

  function ShaderAssignment(attribute: string, input: string): string {
    ShaderKey(attribute) + "='" + input + "'"
  }

  /** A face assignment `path.f[..]` becomes one on the whole object, the text before the first `.`. */
  function StripComponent(node: string): string {
    if '.' in node then Split(node, '.')[0] else node
  }

  function StripAll(nodes: seq<string>): (r: seq<string>)
    ensures |r| == |nodes|
  {
    seq(|nodes|, i requires 0 <= i < |nodes| => StripComponent(nodes[i]))
  }

  /** `assignments[node].append(a)` for each node in turn. */
  function AppendToAll(m: map<string, seq<string>>, nodes: seq<string>, a: string): (r: map<string, seq<string>>)
    requires forall i :: 0 <= i < |nodes| ==> nodes[i] in m
    ensures r.Keys == m.Keys
    decreases |nodes|
  {
    if |nodes| == 0 then m
    else
      var last := nodes[|nodes| - 1];
      var r := AppendToAll(m, nodes[..|nodes| - 1], a);
      r[last := r[last] + [a]]
  }

  /**
   * `shading_engine_assignments` as written: no input leaves everything as
   * it is; otherwise the nodes are stripped of components in place and each
   * stripped node's list gets the assignment, which raises `KeyError` when
   * the stripped node was never a key.
   */
  function ShadingAsWritten(inputs: seq<string>, attribute: string, nodes: seq<string>, m: map<string, seq<string>>)
    : Result<(seq<string>, map<string, seq<string>>)>
  {
    if |inputs| == 0 then Ok((nodes, m))
    else
      var s := StripAll(nodes);
      if exists i :: 0 <= i < |s| && s[i] !in m then Err("KeyError")
      else Ok((s, AppendToAll(m, s, ShaderAssignment(attribute, inputs[0]))))
  }

  method ShadingEngineAssignments(inputs: seq<string>, attribute: string, nodes: seq<string>, m: map<string, seq<string>>)
    returns (r: Result<(seq<string>, map<string, seq<string>>)>)
    ensures r == ShadingAsWritten(inputs, attribute, nodes, m)
  {
    if |inputs| == 0 {
      return Ok((nodes, m));
    }
    var stripped := StripComponents(nodes);
    var a := ShaderAssignment(attribute, inputs[0]);
    var assignments := m;
    for i := 0 to |stripped|
      invariant forall j :: 0 <= j < i ==> stripped[j] in m
      invariant assignments == AppendToAll(m, stripped[..i], a)
    {
      assert stripped[..i + 1][..i] == stripped[..i];
      if stripped[i] !in assignments {
        return Err("KeyError");
      }
      assignments := assignments[stripped[i] := assignments[stripped[i]] + [a]];
    }
    assert stripped[..|stripped|] == stripped;
    r := Ok((stripped, assignments));
  }

  /** The in-place loop that cuts each face assignment back to its object. */
  method StripComponents(nodes: seq<string>) returns (stripped: seq<string>)
    ensures stripped == StripAll(nodes)
  {
    stripped := nodes;
    for i := 0 to |nodes|
      invariant |stripped| == |nodes|
      invariant forall j :: 0 <= j < i ==> stripped[j] == StripComponent(nodes[j])
      invariant forall j :: i <= j < |nodes| ==> stripped[j] == nodes[j]
    {
      if '.' in stripped[i] {
        stripped := stripped[i := Split(stripped[i], '.')[0]];
      }
    }
  }

  lemma StrippedFree(node: string)
    ensures '.' !in StripComponent(node)
  {
    if '.' in node {
      SplitPartsFree(node, '.');
    }
  }

  /** Stripping twice is stripping once, so the displacement pass sees the surface pass's nodes unchanged. */
  lemma StripIdempotent(nodes: seq<string>)
    ensures StripAll(StripAll(nodes)) == StripAll(nodes)
  {
    forall i | 0 <= i < |nodes| ensures StripComponent(StripComponent(nodes[i])) == StripComponent(nodes[i]) {
      StrippedFree(nodes[i]);
    }
  }

  /** `assignments.setdefault(node, []).append(a)` for each node in turn. */
  function AppendCreating(m: map<string, seq<string>>, nodes: seq<string>, a: string): (r: map<string, seq<string>>)
    decreases |nodes|
  {
    if |nodes| == 0 then m
    else
      var last := nodes[|nodes| - 1];
      var r := AppendCreating(m, nodes[..|nodes| - 1], a);
      r[last := (if last in r then r[last] else []) + [a]]
  }

  /** The evidently intended step: a stripped node that has no list yet gets one. */
  function ShadingIntended(inputs: seq<string>, attribute: string, nodes: seq<string>, m: map<string, seq<string>>)
    : (seq<string>, map<string, seq<string>>)
  {
    if |inputs| == 0 then (nodes, m)
    else
      var s := StripAll(nodes);
      (s, AppendCreating(m, s, ShaderAssignment(attribute, inputs[0])))
  }

  lemma {:induction false} AppendCreatingEnds(m: map<string, seq<string>>, nodes: seq<string>, a: string)
    ensures forall k :: k in m ==> k in AppendCreating(m, nodes, a)
    ensures forall i :: 0 <= i < |nodes| ==>
      nodes[i] in AppendCreating(m, nodes, a) &&
      |AppendCreating(m, nodes, a)[nodes[i]]| > 0 &&
      AppendCreating(m, nodes, a)[nodes[i]][|AppendCreating(m, nodes, a)[nodes[i]]| - 1] == a
    decreases |nodes|
  {
    if |nodes| > 0 {
      var init := nodes[..|nodes| - 1];
      AppendCreatingEnds(m, init, a);
      forall i | 0 <= i < |nodes| - 1 ensures nodes[i] == init[i] { }
    }
  }

  /**
   * With the intended step every object path of the edit, stripped of its
   * component, ends up with the shading engine's assignment last in its list.
   */
  lemma IntendedAssignsEveryNode(inputs: seq<string>, attribute: string, nodes: seq<string>, m: map<string, seq<string>>)
    requires |inputs| > 0
    ensures var (s, r) := ShadingIntended(inputs, attribute, nodes, m);
      forall i :: 0 <= i < |nodes| ==>
        var node := StripComponent(nodes[i]);
        node in r && |r[node]| > 0 && r[node][|r[node]| - 1] == ShaderAssignment(attribute, inputs[0])
  {
    var s := StripAll(nodes);
    AppendCreatingEnds(m, s, ShaderAssignment(attribute, inputs[0]));
    assert forall i :: 0 <= i < |nodes| ==> StripComponent(nodes[i]) == s[i];
  }

  // ---------------------------------------------------------------------
  // The assignments of a look

  /**
   * One edit of a look: a shading engine to assign (whether the node is a
   * shading engine at all, and the inputs of its surface and displacement
   * slots, are read from the scene), or attributes to set.
   */
  datatype Edit =
    | Assign(nodes: seq<string>, isShadingEngine: bool, surfaceInputs: seq<string>, displacementInputs: seq<string>)
    | SetAttr(nodes: seq<string>, attributes: Entries<Value>)

  /** Every node of the edit gets an empty list unless it has one. */
  function AddMissing(m: map<string, seq<string>>, nodes: seq<string>): (r: map<string, seq<string>>)
    ensures forall k :: k in m ==> k in r && r[k] == m[k]
    ensures forall i :: 0 <= i < |nodes| ==> nodes[i] in r
    ensures forall k :: k in r ==> k in m || k in nodes
    decreases |nodes|
  {
    if |nodes| == 0 then m
    else
      var last := nodes[|nodes| - 1];
      var r := AddMissing(m, nodes[..|nodes| - 1]);
      assert forall i :: 0 <= i < |nodes| - 1 ==> nodes[i] == nodes[..|nodes| - 1][i];
      if last in r then r else r[last := []]
  }

  /** Each assignment in turn appended to every node. */
  function AppendEach(m: map<string, seq<string>>, nodes: seq<string>, assignments: seq<string>): (r: map<string, seq<string>>)
    requires forall i :: 0 <= i < |nodes| ==> nodes[i] in m
    ensures r.Keys == m.Keys
    decreases |assignments|
  {
    if |assignments| == 0 then m
    else AppendToAll(AppendEach(m, nodes, assignments[..|assignments| - 1]), nodes, assignments[|assignments| - 1])
  }

  function Step(m: map<string, seq<string>>, edit: Edit): Result<map<string, seq<string>>> {
    var m1 := AddMissing(m, edit.nodes);
    match edit
    case Assign(nodes, isShadingEngine, surfaceInputs, displacementInputs) =>
      if !isShadingEngine then Ok(m1)
      else
        (match ShadingAsWritten(surfaceInputs, "surfaceShader", nodes, m1)
         case Err(e) => Err(e)
         case Ok((s, m2)) =>
           (match ShadingAsWritten(displacementInputs, "displacementShader", s, m2)
            case Err(e) => Err(e)
            case Ok((_, m3)) => Ok(m3)))
    case SetAttr(nodes, attributes) => Ok(AppendEach(m1, nodes, SetattrAssignments(attributes)))
  }

  /** The assignments per object path of all edits, or the error that stops the loop. */
  function Assignments(edits: seq<Edit>): Result<map<string, seq<string>>>
    decreases |edits|
  {
    if |edits| == 0 then Ok(map[])
    else
      match Assignments(edits[..|edits| - 1])
      case Err(e) => Err(e)
      case Ok(m) => Step(m, edits[|edits| - 1])
  }

  lemma {:induction false} ErrSticks(edits: seq<Edit>, n: nat)
    requires n <= |edits| && Assignments(edits[..n]).Err?
    ensures Assignments(edits) == Assignments(edits[..n])
    decreases |edits| - n
  {
    if n < |edits| {
      assert edits[..n + 1][..n] == edits[..n];
      assert Assignments(edits[..n + 1]) == Assignments(edits[..n]);
      ErrSticks(edits, n + 1);
    } else {
      assert edits[..n] == edits;
    }
  }

  /** The attribute loop of a setattr edit, appending to the nodes as it goes. */
  method SetattrEdit(nodes: seq<string>, attributes: Entries<Value>, m: map<string, seq<string>>)
    returns (r: map<string, seq<string>>)
    requires forall i :: 0 <= i < |nodes| ==> nodes[i] in m
    ensures r == AppendEach(m, nodes, SetattrAssignments(attributes))
  {
    r := m;
    var visibility := false;
    for i := 0 to |attributes|
      invariant r == AppendEach(m, nodes, PlainAssignments(attributes[..i]))
      invariant visibility <==> AnyVisibility(attributes[..i])
    {
      var (name, value) := attributes[i];
      SetattrStep(attributes, i);
      var plain := PlainAssignments(attributes[..i]);
      assert plain + [] == plain;
      if name !in AttributeMapping {
        continue;
      }
      if AttributeMapping[name] == "visibility" {
        visibility := true;
        continue;
      }
      var a := AttributeMapping[name] + "=" + Repr(value);
      AppendEachSnoc(m, nodes, plain, a);
      r := AppendToNodes(r, nodes, a);
    }
    assert attributes[..|attributes|] == attributes;
    var plain := PlainAssignments(attributes);
    if visibility {
      var mask := CalculateVisibilityMask(attributes);
      var a := "visibility=" + IntToStr(mask);
      AppendEachSnoc(m, nodes, plain, a);
      r := AppendToNodes(r, nodes, a);
    } else {
      assert plain + [] == plain;
    }
  }

  /** One attribute of the loop: it adds its plain assignment, or marks visibility, or nothing. */
  lemma SetattrStep(attributes: Entries<Value>, i: nat)
    requires i < |attributes|
    ensures var (name, value) := attributes[i];
      PlainAssignments(attributes[..i + 1]) == PlainAssignments(attributes[..i]) +
        (if name in AttributeMapping && !SetsVisibility(name) then [AttributeMapping[name] + "=" + Repr(value)] else []) &&
      (AnyVisibility(attributes[..i + 1]) <==> AnyVisibility(attributes[..i]) || SetsVisibility(name))
  {
    var prefix := attributes[..i + 1];
    assert prefix[..i] == attributes[..i] && prefix[i] == attributes[i];
    if AnyVisibility(prefix) {
      var j :| 0 <= j < |prefix| && SetsVisibility(prefix[j].0);
      if j < i { assert attributes[..i][j] == prefix[j]; }
    }
    if AnyVisibility(attributes[..i]) {
      var j :| 0 <= j < i && SetsVisibility(attributes[..i][j].0);
      assert prefix[j] == attributes[..i][j];
    }
  }

  lemma AppendEachSnoc(m: map<string, seq<string>>, nodes: seq<string>, assignments: seq<string>, a: string)
    requires forall i :: 0 <= i < |nodes| ==> nodes[i] in m
    ensures AppendEach(m, nodes, assignments + [a]) == AppendToAll(AppendEach(m, nodes, assignments), nodes, a)
  {
    assert (assignments + [a])[..|assignments|] == assignments;
  }

  /** `for node in nodes: node_assignments[node].append(a)`. */
  method AppendToNodes(m: map<string, seq<string>>, nodes: seq<string>, a: string) returns (r: map<string, seq<string>>)
    requires forall i :: 0 <= i < |nodes| ==> nodes[i] in m
    ensures r == AppendToAll(m, nodes, a)
  {
    r := m;
    for i := 0 to |nodes|
      invariant r == AppendToAll(m, nodes[..i], a)
    {
      assert nodes[..i + 1][..i] == nodes[..i];
      r := r[nodes[i] := r[nodes[i]] + [a]];
    }
    assert nodes[..|nodes|] == nodes;
  }

  /**
   * The operator definition loop of `assign_look_by_version`: the
   * assignment strings each object path of the look's edits receives.
   */
  method NodeAssignments(edits: seq<Edit>) returns (r: Result<map<string, seq<string>>>)
    ensures r == Assignments(edits)
  {
    var m: map<string, seq<string>> := map[];
    for i := 0 to |edits|
      invariant Assignments(edits[..i]) == Ok(m)
    {
      AssignmentsSnoc(edits, i, m);
      var step := EditAssignments(m, edits[i]);
      if step.Err? {
        ErrSticks(edits, i + 1);
        return Err(step.error);
      }
      m := step.value;
    }
    assert edits[..|edits|] == edits;
    r := Ok(m);
  }

  lemma AssignmentsSnoc(edits: seq<Edit>, i: nat, m: map<string, seq<string>>)
    requires i < |edits| && Assignments(edits[..i]) == Ok(m)
    ensures Assignments(edits[..i + 1]) == Step(m, edits[i])
  {
    assert edits[..i + 1][..i] == edits[..i];
  }

  /** One edit of the loop: its nodes get lists, then the shading engine or the attributes are assigned. */
  method EditAssignments(m: map<string, seq<string>>, edit: Edit) returns (r: Result<map<string, seq<string>>>)
    ensures r == Step(m, edit)
  {
    var m1 := AddMissingNodes(m, edit.nodes);
    match edit {
      case Assign(nodes, isShadingEngine, surfaceInputs, displacementInputs) =>
        if !isShadingEngine {
          return Ok(m1);
        }
        var surface := ShadingEngineAssignments(surfaceInputs, "surfaceShader", nodes, m1);
        if surface.Err? {
          return Err(surface.error);
        }
        var displacement := ShadingEngineAssignments(displacementInputs, "displacementShader", surface.value.0, surface.value.1);
        if displacement.Err? {
          return Err(displacement.error);
        }
        r := Ok(displacement.value.1);
      case SetAttr(nodes, attributes) =>
        var m2 := SetattrEdit(nodes, attributes, m1);
        r := Ok(m2);
    }
  }

  /** `if node not in node_assignments: node_assignments[node] = []` for each node. */
  method AddMissingNodes(m: map<string, seq<string>>, nodes: seq<string>) returns (r: map<string, seq<string>>)
    ensures r == AddMissing(m, nodes)
  {
    r := m;
    for j := 0 to |nodes|
      invariant r == AddMissing(m, nodes[..j])
    {
      assert nodes[..j + 1][..j] == nodes[..j];
      if nodes[j] !in r {
        r := r[nodes[j] := []];
      }
    }
    assert nodes[..|nodes|] == nodes;
  }

  predicate NoComponents(edits: seq<Edit>) {
    forall i, j :: 0 <= i < |edits| && 0 <= j < |edits[i].nodes| ==> '.' !in edits[i].nodes[j]
  }

  lemma StripNoDot(nodes: seq<string>)
    requires forall j :: 0 <= j < |nodes| ==> '.' !in nodes[j]
    ensures StripAll(nodes) == nodes
  { }

  /** One edit on whole objects succeeds, keeps every list it found and gives each of its nodes one. */
  lemma StepWholeObjects(m: map<string, seq<string>>, edit: Edit)
    requires forall j :: 0 <= j < |edit.nodes| ==> '.' !in edit.nodes[j]
    ensures Step(m, edit).Ok?
    ensures forall k :: k in m ==> k in Step(m, edit).value
    ensures forall j :: 0 <= j < |edit.nodes| ==> edit.nodes[j] in Step(m, edit).value
  {
    var m1 := AddMissing(m, edit.nodes);
    StripNoDot(edit.nodes);
    if edit.Assign? && edit.isShadingEngine {
      var surface := ShadingAsWritten(edit.surfaceInputs, "surfaceShader", edit.nodes, m1);
      assert surface.Ok? && surface.value.0 == edit.nodes && surface.value.1.Keys == m1.Keys;
      var displacement := ShadingAsWritten(edit.displacementInputs, "displacementShader", edit.nodes, surface.value.1);
      assert displacement.Ok? && displacement.value.1.Keys == m1.Keys;
    }
  }

  /** Edits on whole objects never fail, and every object path they name ends up with a list. */
  lemma {:induction false} WholeObjectsNeverRaise(edits: seq<Edit>)
    requires NoComponents(edits)
    ensures Assignments(edits).Ok?
    ensures forall i, j :: 0 <= i < |edits| && 0 <= j < |edits[i].nodes| ==> edits[i].nodes[j] in Assignments(edits).value
    decreases |edits|
  {
    if |edits| > 0 {
      var n := |edits|;
      var init := edits[..n - 1];
      assert NoComponents(init) by {
        assert forall i :: 0 <= i < n - 1 ==> init[i] == edits[i];
      }
      WholeObjectsNeverRaise(init);
      var m := Assignments(init).value;
      StepWholeObjects(m, edits[n - 1]);
      var r := Step(m, edits[n - 1]);
      assert Assignments(edits) == r;
      forall i, j | 0 <= i < n && 0 <= j < |edits[i].nodes|
        ensures edits[i].nodes[j] in r.value
      {
        if i < n - 1 {
          assert init[i] == edits[i];
          assert edits[i].nodes[j] in m;
        }
      }
    }
  }

  /**
   * A face assignment on an object no other edit names raises: the list was
   * created for `/root/mesh.f[0:3]`, the stripped path `/root/mesh` has none.
   */
  lemma ComponentAssignmentRaises(path: string, components: string, input: string)
    requires '.' !in path
    ensures Assignments([Assign([path + "." + components], true, [input], [])]).Err?
  {
    var node := path + "." + components;
    var edits := [Assign([node], true, [input], [])];
    assert edits[..0] == [];
    assert node[|path|] == '.';
    var m1 := AddMissing(map[], [node]);
    assert m1.Keys == {node};
    assert node == path + ['.'] + components;
    SplitPrefix(path, components, '.');
    assert StripComponent(node) == path;
    assert path != node;
  }
}

/**
 * The render settings validator: the conversion of the expected values
 * in the settings, the attribute checks read from the settings, and the
 * rules that make a render layer's settings invalid.  The values it reads
 * from the scene (the image prefix, padding, animation flag, renderer
 * nodes and attribute values) are given as a `Scene` record; the repair
 * action is Maya calls outside the model.
 */
module ValidateRenderSettings {
  import opened Strs
  import opened PyData
  import opened PyConv

  // ---------------------------------------------------------------------
  // convert_to_int_or_float

  /** `int` is tried first, then `float`; a value neither accepts stays the string it was. */
  function ConvertToIntOrFloat(s: string): (r: Value)
    ensures ParseInt(s).Some? ==> r == VInt(ParseInt(s).value)
    ensures ParseInt(s).None? && ParseFloat(s).Some? ==> r == VFloat(ParseFloat(s).value)
    ensures ParseInt(s).None? && ParseFloat(s).None? ==> r == VStr(s)
  {
    match ParseInt(s)
    case Some(i) => VInt(i)
    case None =>
      match ParseFloat(s)
      case Some(f) => VFloat(f)
      case None => VStr(s)
  }

  /** An integer's text converts back to the integer, never to a float. */
  lemma ConvertIntText(n: int)
    ensures ConvertToIntOrFloat(IntToStr(n)) == VInt(n)
  {
    ParseIntStr(n);
  }

  /** The result is the input unchanged exactly when it is neither an int nor a float literal. */
  lemma ConvertKeepsText(s: string)
    ensures ConvertToIntOrFloat(s) == VStr(s) <==> ParseFloat(s).None?
  {
    if ParseInt(s).Some? {
      IntIsFloat(s);
    }
  }

  // ---------------------------------------------------------------------
  // get_nodes

  /** One attribute check: the attribute, the nodes of its node type, the accepted values. */
  datatype NodeCheck = NodeCheck(attribute: string, nodes: seq<string>, values: seq<Value>)

  /** `OrderedDict(items)`: a repeated attribute keeps its first position and its last values. */
  function Collapse(items: seq<(string, seq<string>)>): (d: Entries<seq<string>>)
    ensures UniqueKeys(d)
  {
    if |items| == 0 then []
    else
      var d := Collapse(items[..|items| - 1]);
      PutUnique(d, items[|items| - 1].0, items[|items| - 1].1);
      Put(d, items[|items| - 1].0, items[|items| - 1].1)
  }

  /** `[convert_to_int_or_float(v) for v in values if v]`: empty strings are dropped. */
  function Converted(values: seq<string>): (r: seq<Value>)
    ensures |r| <= |values|
  {
    if |values| == 0 then []
    else Converted(values[..|values| - 1])
         + (if values[|values| - 1] == "" then [] else [ConvertToIntOrFloat(values[|values| - 1])])
  }

  /** The part of `attr` before its first `.` and the part after it. */
  function SplitFirstDot(attr: string): (string, string)
    requires '.' in attr
  {
    var k := FindFrom(attr, '.', 0);
    (attr[..k], attr[k + 1..])
  }

  /** The check an entry gives: none without values, without a `.`, or without nodes of its type. */
  function CheckFor(attr: string, values: seq<string>, nodesOfType: string -> seq<string>): Option<NodeCheck> {
    var vs := Converted(values);
    if |vs| == 0 || '.' !in attr then None
    else
      var (nodeType, attributeName) := SplitFirstDot(attr);
      if |nodesOfType(nodeType)| == 0 then None
      else Some(NodeCheck(attributeName, nodesOfType(nodeType), vs))
  }

  /** The checks of the collapsed entries, in their order. */
  function Checks(entries: Entries<seq<string>>, nodesOfType: string -> seq<string>): seq<NodeCheck> {
    if |entries| == 0 then []
    else
      var last := entries[|entries| - 1];
      Checks(entries[..|entries| - 1], nodesOfType)
      + match CheckFor(last.0, last.1, nodesOfType) case Some(c) => [c] case None => []
  }

  /** `get_nodes`: the settings items collapsed into a dict, then one check per usable entry. */
  method GetNodes(items: seq<(string, seq<string>)>, nodesOfType: string -> seq<string>) returns (result: seq<NodeCheck>)
    ensures result == Checks(Collapse(items), nodesOfType)
  {
    var d: Entries<seq<string>> := [];
    for i := 0 to |items|
      invariant d == Collapse(items[..i])
    {
      assert items[..i + 1][..i] == items[..i];
      d := Put(d, items[i].0, items[i].1);
    }
    assert items[..|items|] == items;
    result := [];
    for i := 0 to |d|
      invariant result == Checks(d[..i], nodesOfType)
    {
      assert d[..i + 1][..i] == d[..i];
      var values := Converted(d[i].1);
      if |values| == 0 {
        continue;
      }
      if '.' !in d[i].0 {
        continue;
      }
      var (nodeType, attributeName) := SplitFirstDot(d[i].0);
      var nodes := nodesOfType(nodeType);
      if |nodes| == 0 {
        continue;
      }
      result := result + [NodeCheck(attributeName, nodes, values)];
    }
    assert d[..|d|] == d;
  }

  /** A later entry for the same attribute replaces the earlier values. */
  lemma LastEntryWins(items: seq<(string, seq<string>)>, attr: string, values: seq<string>)
    ensures Get(Collapse(items + [(attr, values)]), attr) == Some(values)
  {
    var d := Collapse(items);
    assert (items + [(attr, values)])[..|items|] == items;
    GetPut(d, attr, values, attr);
  }

  /** Values that are all empty strings give no check. */
  lemma {:induction false} EmptyValuesDropped(values: seq<string>)
    requires forall i :: 0 <= i < |values| ==> values[i] == ""
    ensures Converted(values) == []
    decreases |values|
  {
    if |values| > 0 {
      EmptyValuesDropped(values[..|values| - 1]);
    }
  }

  /** An entry with values, a `.` and nodes gives the check on the text after the first `.`. */
  lemma CheckSplitsAtFirstDot(nodeType: string, attribute: string, values: seq<string>,
                              nodesOfType: string -> seq<string>)
    requires '.' !in nodeType && |Converted(values)| > 0 && |nodesOfType(nodeType)| > 0
    ensures CheckFor(nodeType + "." + attribute, values, nodesOfType)
         == Some(NodeCheck(attribute, nodesOfType(nodeType), Converted(values)))
  {
    var attr := nodeType + "." + attribute;
    assert attr[|nodeType|] == '.';
    var k := FindFrom(attr, '.', 0);
    assert k == |nodeType| by {
      assert forall j :: 0 <= j < |nodeType| ==> attr[j] == nodeType[j];
    }
    assert attr[..k] == nodeType;
    assert attr[k + 1..] == attribute;
  }

  // ---------------------------------------------------------------------
  // get_invalid

  /** One Redshift AOV node as read from the scene. */
  datatype RedshiftAov = RedshiftAov(filePrefix: string, fileFormat: string, aovType: string)

  /** What the validator reads from the scene for the layer. */
  datatype Scene = Scene(
    prefix: Option<string>,
    padding: int,
    animation: bool,
    vraySeparator: string,
    redshiftAovs: seq<RedshiftAov>,
    redshiftImageFormat: string,
    rmanFilePrefix: string,
    rmanDirPrefix: string,
    mergeAovs: bool,
    attrValue: (string, string) -> Option<Value>)

  /** The renderers the validator knows an image prefix attribute for. */
  const Renderers: set<string> := {"mentalray", "vray", "arnold", "renderman", "redshift", "mayahardware2"}

  const RedshiftAovPrefix: string := "<BeautyPath>/<BeautyFile>{aov_separator}<RenderPass>"

  /** The prefix every Redshift AOV must carry, with the separator filled in. */
  function AovPrefix(sep: string): string {
    Replace(RedshiftAovPrefix, "{aov_separator}", sep)
  }

  /** `re.search` of a lower-case token with IGNORECASE. */
  predicate HasCI(p: string, token: string) {
    Contains(Lower(p), token)
  }

  /** `%a|<aov>|<renderpass>`, ignoring case. */
  predicate HasAovToken(p: string) {
    HasCI(p, "%a") || HasCI(p, "<aov>") || HasCI(p, "<renderpass>")
  }

  /** `%l|<layer>|<renderlayer>`, ignoring case. */
  predicate HasLayerToken(p: string) {
    HasCI(p, "%l") || HasCI(p, "<layer>") || HasCI(p, "<renderlayer>")
  }

  /** `%c|Camera>`, case-sensitive. */
  predicate HasCameraToken(p: string) {
    Contains(p, "%c") || Contains(p, "Camera>")
  }

  /** The prefix as checked: a missing one is empty, `{aov_separator}` becomes the separator. */
  function CheckedPrefix(scene: Scene, sep: string): string {
    Replace(if scene.prefix.Some? then scene.prefix.value else "", "{aov_separator}", sep)
  }

  /** A Redshift AOV with the wrong prefix, or (unless Cryptomatte) the wrong file format. */
  predicate AovInvalid(aov: RedshiftAov, expected: string, imageFormat: string) {
    aov.filePrefix != expected
    || (aov.aovType != "Cryptomatte" && aov.fileFormat != imageFormat)
  }

  /** A node whose attribute `cmds.getAttr` cannot read: Maya raises, and the validator does not catch it. */
  predicate Unreadable(check: NodeCheck, node: string, attrValue: (string, string) -> Option<Value>) {
    attrValue(node, check.attribute).None?
  }

  /** A node whose attribute holds a value the check does not accept (`not in`, Python's `==`). */
  predicate NodeInvalid(check: NodeCheck, node: string, attrValue: (string, string) -> Option<Value>) {
    attrValue(node, check.attribute).Some? && !PyIn(attrValue(node, check.attribute).value, check.values)
  }

  /**
   * Values are compared with Python's `==`: a float attribute holding the
   * integer an expected value names is accepted (`1.0 == 1`).
   */
  lemma FloatMatchesIntSetting(check: NodeCheck, node: string, attrValue: (string, string) -> Option<Value>, k: nat, n: int)
    requires k < |check.values| && check.values[k] == ConvertToIntOrFloat(IntToStr(n))
    requires attrValue(node, check.attribute) == Some(VFloat(IntToStr(n) + ".0"))
    ensures !NodeInvalid(check, node, attrValue)
  {
    ConvertIntText(n);
    NumbersAcrossTypes(n);
    PyEqSymmetric(VInt(n), VFloat(IntToStr(n) + ".0"));
  }

  /** The checks that do not depend on the renderer's own nodes. */
  predicate CommonInvalid(scene: Scene, cameraCount: nat, sep: string) {
    var p := CheckedPrefix(scene, sep);
    !scene.animation || !HasLayerToken(p) || (cameraCount > 1 && !HasCameraToken(p)) || scene.padding != 4
  }

  /** The checks for one renderer. */
  predicate RendererInvalid(renderer: string, scene: Scene, sep: string) {
    var p := CheckedPrefix(scene, sep);
    (renderer == "vray" && scene.vraySeparator != sep)
    || (renderer == "redshift"
        && (HasAovToken(p)
            || exists i :: 0 <= i < |scene.redshiftAovs| && AovInvalid(scene.redshiftAovs[i], AovPrefix(sep), scene.redshiftImageFormat)))
    || (renderer == "renderman"
        && (Lower(scene.rmanFilePrefix) != Lower(p) || Lower(scene.rmanDirPrefix) != "<scene>/<layer>"))
    || (renderer == "arnold" && (if scene.mergeAovs then HasAovToken(p) else !HasAovToken(p)))
  }

  predicate ChecksInvalid(checks: seq<NodeCheck>, attrValue: (string, string) -> Option<Value>) {
    exists c, j :: 0 <= c < |checks| && 0 <= j < |checks[c].nodes| && NodeInvalid(checks[c], checks[c].nodes[j], attrValue)
  }

  predicate ChecksUnreadable(checks: seq<NodeCheck>, attrValue: (string, string) -> Option<Value>) {
    exists c, j :: 0 <= c < |checks| && 0 <= j < |checks[c].nodes| && Unreadable(checks[c], checks[c].nodes[j], attrValue)
  }

  /** The error `cmds.getAttr` raises for an attribute it cannot read. */
  function ReadError(check: NodeCheck, node: string): string {
    "RuntimeError: cannot read " + node + "." + check.attribute
  }

  /** Two outcomes in turn: the first error wins, otherwise either flag makes the result invalid. */
  function Then(a: Result<bool>, b: Result<bool>): Result<bool> {
    if a.Err? then a else if b.Err? then b else Ok(a.value || b.value)
  }

  /**
   * The inner loop over the nodes of one check: the error of the first
   * node that cannot be read, otherwise whether some value is rejected.
   */
  function NodesOutcome(check: NodeCheck, nodes: seq<string>, attrValue: (string, string) -> Option<Value>): Result<bool>
    decreases |nodes|
  {
    if |nodes| == 0 then Ok(false)
    else
      var node := nodes[|nodes| - 1];
      Then(NodesOutcome(check, nodes[..|nodes| - 1], attrValue),
           if Unreadable(check, node, attrValue) then Err(ReadError(check, node))
           else Ok(NodeInvalid(check, node, attrValue)))
  }

  /** Both loops: the checks in order, each over its nodes. */
  function ChecksOutcome(checks: seq<NodeCheck>, attrValue: (string, string) -> Option<Value>): Result<bool>
    decreases |checks|
  {
    if |checks| == 0 then Ok(false)
    else
      var check := checks[|checks| - 1];
      Then(ChecksOutcome(checks[..|checks| - 1], attrValue), NodesOutcome(check, check.nodes, attrValue))
  }

  /** The node loop fails exactly at an unreadable node, and otherwise flags exactly the rejected values. */
  lemma {:induction false} NodesOutcomeSpec(check: NodeCheck, nodes: seq<string>, attrValue: (string, string) -> Option<Value>)
    ensures NodesOutcome(check, nodes, attrValue).Err? <==> exists j :: 0 <= j < |nodes| && Unreadable(check, nodes[j], attrValue)
    ensures NodesOutcome(check, nodes, attrValue).Ok? ==>
              (NodesOutcome(check, nodes, attrValue).value <==> exists j :: 0 <= j < |nodes| && NodeInvalid(check, nodes[j], attrValue))
    decreases |nodes|
  {
    if |nodes| > 0 {
      var init := nodes[..|nodes| - 1];
      NodesOutcomeSpec(check, init, attrValue);
      assert forall j :: 0 <= j < |init| ==> init[j] == nodes[j];
    }
  }

  /**
   * The check loops raise exactly when some node's attribute cannot be
   * read, and otherwise report invalid exactly when some value is rejected.
   */
  lemma {:induction false} ChecksOutcomeSpec(checks: seq<NodeCheck>, attrValue: (string, string) -> Option<Value>)
    ensures ChecksOutcome(checks, attrValue).Err? <==> ChecksUnreadable(checks, attrValue)
    ensures ChecksOutcome(checks, attrValue).Ok? ==> (ChecksOutcome(checks, attrValue).value <==> ChecksInvalid(checks, attrValue))
    decreases |checks|
  {
    if |checks| > 0 {
      var init := checks[..|checks| - 1];
      var last := checks[|checks| - 1];
      ChecksOutcomeSpec(init, attrValue);
      NodesOutcomeSpec(last, last.nodes, attrValue);
      assert forall c :: 0 <= c < |init| ==> init[c] == checks[c];
      if ChecksUnreadable(checks, attrValue) {
        var c, j :| 0 <= c < |checks| && 0 <= j < |checks[c].nodes| && Unreadable(checks[c], checks[c].nodes[j], attrValue);
        if c < |init| {
          assert ChecksUnreadable(init, attrValue);
        }
      }
      if ChecksInvalid(checks, attrValue) {
        var c, j :| 0 <= c < |checks| && 0 <= j < |checks[c].nodes| && NodeInvalid(checks[c], checks[c].nodes[j], attrValue);
        if c < |init| {
          assert ChecksInvalid(init, attrValue);
        }
      }
    }
  }

  /** Once a prefix of the nodes has raised, the later nodes are never read. */
  lemma {:induction false} NodesErrSticks(check: NodeCheck, nodes: seq<string>, i: nat, attrValue: (string, string) -> Option<Value>)
    requires i <= |nodes| && NodesOutcome(check, nodes[..i], attrValue).Err?
    ensures NodesOutcome(check, nodes, attrValue) == NodesOutcome(check, nodes[..i], attrValue)
    decreases |nodes| - i
  {
    if i < |nodes| {
      TakeTake(nodes, i);
      NodesErrSticks(check, nodes, i + 1, attrValue);
    } else {
      FullPrefix(nodes);
    }
  }

  /** Once a prefix of the checks has raised, the later checks are never read. */
  lemma {:induction false} ChecksErrSticks(checks: seq<NodeCheck>, i: nat, attrValue: (string, string) -> Option<Value>)
    requires i <= |checks| && ChecksOutcome(checks[..i], attrValue).Err?
    ensures ChecksOutcome(checks, attrValue) == ChecksOutcome(checks[..i], attrValue)
    decreases |checks| - i
  {
    if i < |checks| {
      TakeTake(checks, i);
      ChecksErrSticks(checks, i + 1, attrValue);
    } else {
      FullPrefix(checks);
    }
  }

  /** The layer's settings are invalid when any rule fails. */
  predicate Invalid(renderer: string, scene: Scene, cameraCount: nat, sep: string, checks: seq<NodeCheck>) {
    CommonInvalid(scene, cameraCount, sep) || RendererInvalid(renderer, scene, sep) || ChecksInvalid(checks, scene.attrValue)
  }

  /**
   * `get_invalid`: a flag set by each failing rule in turn; an unknown
   * renderer raises KeyError at the prefix attribute lookup, and an
   * attribute check naming an attribute `cmds.getAttr` cannot read raises
   * Maya's error (the `except` clause catches only PublishValidationError).
   */
  method GetInvalid(renderer: string, scene: Scene, cameraCount: nat, aovSeparator: string, checks: seq<NodeCheck>)
    returns (r: Result<bool>)
    ensures renderer !in Renderers ==> r.Err?
    ensures renderer in Renderers ==> (r.Err? <==> ChecksUnreadable(checks, scene.attrValue))
    ensures renderer in Renderers && r.Err? ==> r == ChecksOutcome(checks, scene.attrValue)
    ensures r.Ok? ==> r.value == Invalid(renderer, scene, cameraCount, aovSeparator, checks)
  {
    if renderer !in Renderers {
      return Err("KeyError: renderer");
    }
    var common := CommonRules(scene, cameraCount, aovSeparator);
    var own := RendererRules(renderer, scene, aovSeparator);
    var badNode := CheckNodes(checks, scene.attrValue);
    ChecksOutcomeSpec(checks, scene.attrValue);
    if badNode.Err? {
      return badNode;
    }
    r := Ok(common || own || badNode.value);
  }

  /** The animation, layer token, camera token and padding rules. */
  method CommonRules(scene: Scene, cameraCount: nat, aovSeparator: string) returns (invalid: bool)
    ensures invalid == CommonInvalid(scene, cameraCount, aovSeparator)
  {
    invalid := false;
    var prefix := CheckedPrefix(scene, aovSeparator);
    if !scene.animation {
      invalid := true;
    }
    if !HasLayerToken(prefix) {
      invalid := true;
    }
    if cameraCount > 1 && !HasCameraToken(prefix) {
      invalid := true;
    }
    if scene.padding != 4 {
      invalid := true;
    }
  }

  /** The rules of the renderer in use. */
  method RendererRules(renderer: string, scene: Scene, aovSeparator: string) returns (invalid: bool)
    ensures invalid == RendererInvalid(renderer, scene, aovSeparator)
  {
    invalid := false;
    var prefix := CheckedPrefix(scene, aovSeparator);
    if renderer == "vray" && scene.vraySeparator != aovSeparator {
      invalid := true;
    }
    if renderer == "redshift" {
      if HasAovToken(prefix) {
        invalid := true;
      }
      var badAov := RedshiftAovs(scene.redshiftAovs, AovPrefix(aovSeparator), scene.redshiftImageFormat);
      invalid := invalid || badAov;
    }
    if renderer == "renderman" {
      if Lower(scene.rmanFilePrefix) != Lower(prefix) {
        invalid := true;
      }
      if Lower(scene.rmanDirPrefix) != "<scene>/<layer>" {
        invalid := true;
      }
    }
    if renderer == "arnold" {
      if scene.mergeAovs {
        if HasAovToken(prefix) {
          invalid := true;
        }
      } else if !HasAovToken(prefix) {
        invalid := true;
      }
    }
  }

  /** The loop over the Redshift AOV nodes. */
  method RedshiftAovs(aovs: seq<RedshiftAov>, expected: string, imageFormat: string) returns (bad: bool)
    ensures bad <==> exists i :: 0 <= i < |aovs| && AovInvalid(aovs[i], expected, imageFormat)
  {
    bad := false;
    for i := 0 to |aovs|
      invariant bad <==> exists j :: 0 <= j < i && AovInvalid(aovs[j], expected, imageFormat)
    {
      if aovs[i].filePrefix != expected {
        bad := true;
      }
      if aovs[i].aovType == "Cryptomatte" {
      } else if imageFormat != aovs[i].fileFormat {
        bad := true;
      }
    }
  }

  /** The loop over every check and every node of it; an unreadable attribute aborts it. */
  method CheckNodes(checks: seq<NodeCheck>, attrValue: (string, string) -> Option<Value>) returns (r: Result<bool>)
    ensures r == ChecksOutcome(checks, attrValue)
  {
    var bad := false;
    for c := 0 to |checks|
      invariant ChecksOutcome(checks[..c], attrValue) == Ok(bad)
    {
      var nodes := checks[c].nodes;
      TakeTake(checks, c);
      for j := 0 to |nodes|
        invariant Then(ChecksOutcome(checks[..c], attrValue), NodesOutcome(checks[c], nodes[..j], attrValue)) == Ok(bad)
      {
        TakeTake(nodes, j);
        var value := attrValue(nodes[j], checks[c].attribute);
        if value.None? {
          r := Err(ReadError(checks[c], nodes[j]));
          NodesErrSticks(checks[c], nodes, j + 1, attrValue);
          ChecksErrSticks(checks, c + 1, attrValue);
          return;
        } else if !PyIn(value.value, checks[c].values) {
          bad := true;
        }
      }
      FullPrefix(nodes);
    }
    FullPrefix(checks);
    r := Ok(bad);
  }

  /** Animation switched off alone makes the settings invalid. */
  lemma AnimationRequired(renderer: string, scene: Scene, cameraCount: nat, sep: string, checks: seq<NodeCheck>)
    requires !scene.animation
    ensures Invalid(renderer, scene, cameraCount, sep, checks)
  { }

  /** A prefix without a layer token is invalid. */
  lemma LayerTokenRequired(renderer: string, scene: Scene, cameraCount: nat, sep: string, checks: seq<NodeCheck>)
    requires !HasLayerToken(CheckedPrefix(scene, sep))
    ensures Invalid(renderer, scene, cameraCount, sep, checks)
  { }

  /** Several cameras need a camera token, matched with a capital C. */
  lemma CameraTokenRequired(renderer: string, scene: Scene, cameraCount: nat, sep: string, checks: seq<NodeCheck>)
    requires cameraCount > 1 && !Contains(CheckedPrefix(scene, sep), "%c") && !Contains(CheckedPrefix(scene, sep), "Camera>")
    ensures Invalid(renderer, scene, cameraCount, sep, checks)
  { }

  /** Any padding other than four is invalid. */
  lemma PaddingFour(renderer: string, scene: Scene, cameraCount: nat, sep: string, checks: seq<NodeCheck>)
    requires scene.padding != 4
    ensures Invalid(renderer, scene, cameraCount, sep, checks)
  { }

  /** The AOV-token rules: Redshift must not have one, merged Arnold must not, unmerged Arnold must. */
  lemma AovTokenRules(scene: Scene, cameraCount: nat, sep: string, checks: seq<NodeCheck>)
    ensures HasAovToken(CheckedPrefix(scene, sep)) ==> Invalid("redshift", scene, cameraCount, sep, checks)
    ensures scene.mergeAovs && HasAovToken(CheckedPrefix(scene, sep)) ==> Invalid("arnold", scene, cameraCount, sep, checks)
    ensures !scene.mergeAovs && !HasAovToken(CheckedPrefix(scene, sep)) ==> Invalid("arnold", scene, cameraCount, sep, checks)
  { }

  /** The separator replaces the placeholder; without `aovSeparator` the instance uses `_`. */
  lemma SeparatorSubstituted(pre: string, post: string, sep: string, scene: Scene)
    requires '{' !in pre && '{' !in post
    requires scene.prefix == Some(pre + "{aov_separator}" + post)
    ensures CheckedPrefix(scene, sep) == pre + sep + post
  {
    ReplaceOnce(pre, "{aov_separator}", post, sep);
  }

  /** With every rule met and every node value readable and accepted, the settings are valid. */
  lemma ValidWhenAllPass(renderer: string, scene: Scene, cameraCount: nat, sep: string, checks: seq<NodeCheck>)
    requires !CommonInvalid(scene, cameraCount, sep) && !RendererInvalid(renderer, scene, sep)
    requires forall c, j :: 0 <= c < |checks| && 0 <= j < |checks[c].nodes| ==>
      scene.attrValue(checks[c].nodes[j], checks[c].attribute).Some?
      && PyIn(scene.attrValue(checks[c].nodes[j], checks[c].attribute).value, checks[c].values)
    ensures !Invalid(renderer, scene, cameraCount, sep, checks)
  { }
}

/**
 * The Alembic point cache extractor up to the `extract_alembic` call: the
 * scene unit conversion, the keyword arguments built from the publish
 * attributes and the plugin's settings (with the pre-roll conversion), the
 * attribute definitions the publisher shows, and the animation variant's
 * `out_SET` lookup.  The plugin's class attributes (its settings) are a
 * function from attribute name to value; Maya queries are inputs.
 */
module ExtractPointcache {
  import opened Strs
  import opened PyData

  // ---------------------------------------------------------------------
  // maya_units_to_meters_per_unit

  /** The metres per scene unit; ValueError for a unit other than mm, cm, m and km. */
  function MetersPerUnit(unit: string): (r: Result<real>)
    ensures r.Ok? <==> unit in {"mm", "cm", "m", "km"}
    ensures r.Ok? ==> r.value > 0.0
  {
    if unit == "mm" then Ok(0.001)
    else if unit == "cm" then Ok(0.01)
    else if unit == "m" then Ok(1.0)
    else if unit == "km" then Ok(1000.0)
    else Err("ValueError: Unknown unit: " + unit)
  }

  // ---------------------------------------------------------------------
  // The keyword arguments of `process`

  /** `d.get(key, default)`. */
  function Opt(d: map<string, Value>, key: string, default: Value): Value {
    if key in d then d[key] else default
  }

  /** `[a.strip() for a in values.get(key, "").split(";") if a.strip()]`; a non-str value has no `split`. */
  function AttrList(values: map<string, Value>, key: string): (r: Result<seq<string>>)
    ensures r.Ok? <==> Opt(values, key, VStr("")).VStr?
    ensures r.Ok? ==> r.value == SplitClean(Opt(values, key, VStr("")).s, ';')
  {
    var v := Opt(values, key, VStr(""));
    if v.VStr? then Ok(SplitClean(v.s, ';')) else Err("AttributeError: object has no attribute 'split'")
  }

  /** What `process` reads from the instance besides the publish attributes. */
  datatype InstanceInputs = InstanceInputs(
    data: map<string, Value>, path: string, root: Value, start: Value, end: Value)

  /** The `attr` list: the publish attribute's items, the instance's user-defined attributes, the baked ones, then `cbId`. */
  function Attrs(values: map<string, Value>, cls: string -> Value, inst: InstanceInputs): Result<seq<Value>> {
    match AttrList(values, "attr")
    case Err(e) => Err(e)
    case Ok(items) =>
      match (Items(Opt(inst.data, "userDefinedAttributes", VList([]))), Items(cls("bake_attributes")))
      case (Some(user), Some(bake)) => Ok(StrValues(items) + user + bake + [VStr("cbId")])
      case _ => Err("TypeError: object is not iterable")
  }

  /** `instance.data.get("creator_attributes", {}).get("step", 1.0)`. */
  function Step(data: map<string, Value>): Result<Value> {
    var ca := Opt(data, "creator_attributes", VDict([]));
    if ca.VDict? then Ok(GetOr(ca.entries, "step", VFloat("1.0")))
    else Err("AttributeError: object has no attribute 'get'")
  }

  /**
   * The keyword arguments handed to `extract_alembic`, one field per
   * keyword.
   */
  datatype AlembicKwargs = AlembicKwargs(
    file: string, attr: seq<Value>, attrPrefix: seq<Value>, userAttr: seq<Value>, userAttrPrefix: seq<Value>,
    dataFormat: Value, endFrame: Value, eulerFilter: Value, preRoll: Value, preRollStartFrame: Value,
    renderableOnly: Value, root: Value, selection: bool, startFrame: Value, step: Value,
    stripNamespaces: Value, uvWrite: Value, verbose: Value, wholeFrameGeo: Value, worldSpace: Value,
    writeColorSets: Value, writeCreases: Value, writeFaceSets: Value, writeUVSets: Value,
    writeVisibility: Value, uvsOnly: Value, melPerFrameCallback: Value, melPostJobCallback: Value,
    pythonPerFrameCallback: Value, pythonPostJobCallback: Value, noNormals: bool)

  /**
   * The keyword arguments before the pre-roll conversion.
   * `perFrameFallback` names the class attribute the per-frame Python
   * callback falls back to: the source reads `pythonPostJobCallback` there.
   */
  function KwargsWith(values: map<string, Value>, cls: string -> Value, inst: InstanceInputs, perFrameFallback: string)
    : Result<AlembicKwargs>
  {
    match (Attrs(values, cls, inst), AttrList(values, "attrPrefix"), Items(cls("bake_attribute_prefixes")),
           AttrList(values, "userAttr"), AttrList(values, "userAttrPrefix"), Step(inst.data))
    case (Ok(attrs), Ok(prefixes), Some(bakePrefixes), Ok(userAttrs), Ok(userPrefixes), Ok(step)) =>
      Ok(Assemble(values, cls, inst, perFrameFallback, attrs, StrValues(prefixes) + bakePrefixes,
                  StrValues(userAttrs), StrValues(userPrefixes), step))
    case _ => Err("the publish attributes or the instance data are malformed")
  }

  /** The keyword arguments from their computed pieces and the plain lookups. */
  function Assemble(values: map<string, Value>, cls: string -> Value, inst: InstanceInputs, perFrameFallback: string,
                    attrs: seq<Value>, attrPrefix: seq<Value>, userAttr: seq<Value>, userAttrPrefix: seq<Value>,
                    step: Value): AlembicKwargs
  {
    AlembicKwargs(
      file := inst.path,
      attr := attrs,
      attrPrefix := attrPrefix,
      userAttr := userAttr,
      userAttrPrefix := userAttrPrefix,
      dataFormat := Opt(values, "dataFormat", cls("dataFormat")),
      endFrame := inst.end,
      eulerFilter := Opt(values, "eulerFilter", cls("eulerFilter")),
      preRoll := Opt(values, "preRoll", cls("preRoll")),
      preRollStartFrame := Opt(values, "preRollStartFrame", cls("preRollStartFrame")),
      renderableOnly := Opt(values, "renderableOnly", cls("renderableOnly")),
      root := inst.root,
      selection := true,
      startFrame := inst.start,
      step := step,
      stripNamespaces := Opt(values, "stripNamespaces", cls("stripNamespaces")),
      uvWrite := Opt(values, "uvWrite", cls("uvWrite")),
      verbose := Opt(values, "verbose", cls("verbose")),
      wholeFrameGeo := Opt(values, "wholeFrameGeo", cls("wholeFrameGeo")),
      worldSpace := Opt(values, "worldSpace", cls("worldSpace")),
      writeColorSets := Opt(values, "writeColorSets", cls("writeColorSets")),
      writeCreases := Opt(values, "writeCreases", cls("writeCreases")),
      writeFaceSets := Opt(values, "writeFaceSets", cls("writeFaceSets")),
      writeUVSets := Opt(values, "writeUVSets", cls("writeUVSets")),
      writeVisibility := Opt(values, "writeVisibility", cls("writeVisibility")),
      uvsOnly := Opt(values, "uvsOnly", cls("uvsOnly")),
      melPerFrameCallback := Opt(values, "melPerFrameCallback", cls("melPerFrameCallback")),
      melPostJobCallback := Opt(values, "melPostJobCallback", cls("melPostJobCallback")),
      pythonPerFrameCallback := Opt(values, "pythonPerFrameCallback", cls(perFrameFallback)),
      pythonPostJobCallback := Opt(values, "pythonPostJobCallback", cls("pythonPostJobCallback")),
      noNormals := !Truthy(Opt(values, "writeNormals", cls("writeNormals"))))
  }

  /**
   * The pre-roll conversion: a requested pre-roll keeps its start frame and
   * is itself switched off; otherwise the start frame becomes None.
   */
  function PreRollConverted(kw: AlembicKwargs): AlembicKwargs {
    if Truthy(kw.preRoll) then kw.(preRoll := VBool(false)) else kw.(preRollStartFrame := VNone)
  }

  /** The keyword arguments as the source builds them. */
  function ExportKwargsAsWritten(values: map<string, Value>, cls: string -> Value, inst: InstanceInputs)
    : Result<AlembicKwargs>
  {
    match KwargsWith(values, cls, inst, "pythonPostJobCallback")
    case Err(e) => Err(e)
    case Ok(kw) => Ok(PreRollConverted(kw))
  }

  /** The keyword arguments with the per-frame callback falling back to its own setting. */
  function ExportKwargs(values: map<string, Value>, cls: string -> Value, inst: InstanceInputs)
    : Result<AlembicKwargs>
  {
    match KwargsWith(values, cls, inst, "pythonPerFrameCallback")
    case Err(e) => Err(e)
    case Ok(kw) => Ok(PreRollConverted(kw))
  }

  /** When the keyword arguments can be built at all: string attribute lists, iterable extra lists, a dict of creator attributes. */
  predicate WellFormed(values: map<string, Value>, cls: string -> Value, inst: InstanceInputs) {
    && Opt(values, "attr", VStr("")).VStr? && Opt(values, "attrPrefix", VStr("")).VStr?
    && Opt(values, "userAttr", VStr("")).VStr? && Opt(values, "userAttrPrefix", VStr("")).VStr?
    && Items(Opt(inst.data, "userDefinedAttributes", VList([]))).Some?
    && Items(cls("bake_attributes")).Some? && Items(cls("bake_attribute_prefixes")).Some?
    && Opt(inst.data, "creator_attributes", VDict([])).VDict?
  }

  /** The keyword arguments are built exactly on well-formed inputs, whichever fallback is read. */
  lemma KwargsOk(values: map<string, Value>, cls: string -> Value, inst: InstanceInputs, fallback: string)
    ensures KwargsWith(values, cls, inst, fallback).Ok? <==> WellFormed(values, cls, inst)
  {
    assert KwargsWith(values, cls, inst, fallback).Ok? <==> PartsOk(values, cls, inst);
    PartsWellFormed(values, cls, inst);
  }

  /** Each of the six pieces the keyword arguments are built from is available. */
  predicate PartsOk(values: map<string, Value>, cls: string -> Value, inst: InstanceInputs) {
    Attrs(values, cls, inst).Ok? && AttrList(values, "attrPrefix").Ok? && Items(cls("bake_attribute_prefixes")).Some?
    && AttrList(values, "userAttr").Ok? && AttrList(values, "userAttrPrefix").Ok? && Step(inst.data).Ok?
  }

  lemma PartsWellFormed(values: map<string, Value>, cls: string -> Value, inst: InstanceInputs)
    ensures PartsOk(values, cls, inst) <==> WellFormed(values, cls, inst)
  { }

  /**
   * After the conversion `preRoll` is never set, and `preRollStartFrame`
   * keeps its value exactly when a pre-roll was requested.
   */
  lemma PreRollNeverSet(values: map<string, Value>, cls: string -> Value, inst: InstanceInputs)
    requires ExportKwargs(values, cls, inst).Ok?
    ensures var kw := ExportKwargs(values, cls, inst).value;
      && !Truthy(kw.preRoll)
      && kw.preRollStartFrame
         == if Truthy(Opt(values, "preRoll", cls("preRoll")))
            then Opt(values, "preRollStartFrame", cls("preRollStartFrame")) else VNone
  { }

  /** Only the two pre-roll keywords differ from the unconverted arguments. */
  lemma PreRollOnly(kw: AlembicKwargs)
    ensures PreRollConverted(kw).(preRoll := kw.preRoll, preRollStartFrame := kw.preRollStartFrame) == kw
  { }

  /** `noNormals` is the negation of `writeNormals`. */
  lemma NoNormalsNegates(values: map<string, Value>, cls: string -> Value, inst: InstanceInputs)
    requires ExportKwargs(values, cls, inst).Ok?
    ensures ExportKwargs(values, cls, inst).value.noNormals <==> !Truthy(Opt(values, "writeNormals", cls("writeNormals")))
  { }

  /** The `attr` list keeps its order: the split publish attribute, the user-defined ones, the baked ones, and `cbId` last. */
  lemma AttrOrder(values: map<string, Value>, cls: string -> Value, inst: InstanceInputs)
    requires ExportKwargs(values, cls, inst).Ok?
    ensures var a := ExportKwargs(values, cls, inst).value.attr;
      && a == StrValues(SplitClean(Opt(values, "attr", VStr("")).s, ';'))
              + Items(Opt(inst.data, "userDefinedAttributes", VList([]))).value
              + Items(cls("bake_attributes")).value + [VStr("cbId")]
      && a[|a| - 1] == VStr("cbId")
  { }

  /** The per-frame callback: its publish attribute when set, otherwise its own class setting. */
  lemma PerFrameCallback(values: map<string, Value>, cls: string -> Value, inst: InstanceInputs)
    requires ExportKwargs(values, cls, inst).Ok?
    ensures ExportKwargs(values, cls, inst).value.pythonPerFrameCallback
         == Opt(values, "pythonPerFrameCallback", cls("pythonPerFrameCallback"))
  { }

  /** As written, the per-frame callback falls back to the post-job callback's class setting. */
  lemma PerFrameCallbackAsWritten(values: map<string, Value>, cls: string -> Value, inst: InstanceInputs)
    requires ExportKwargsAsWritten(values, cls, inst).Ok?
    ensures ExportKwargsAsWritten(values, cls, inst).value.pythonPerFrameCallback
         == Opt(values, "pythonPerFrameCallback", cls("pythonPostJobCallback"))
  { }

  /**
   * The discrepancy: with no per-frame publish attribute and the settings
   * `f` for the per-frame and `p` for the post-job callback, the source
   * hands Alembic `p` as the per-frame callback.
   */
  lemma PerFrameTakesPostJob(cls: string -> Value, inst: InstanceInputs)
    requires WellFormed(map[], cls, inst)
    requires cls("pythonPerFrameCallback") == VStr("f") && cls("pythonPostJobCallback") == VStr("p")
    ensures ExportKwargsAsWritten(map[], cls, inst).Ok? && ExportKwargs(map[], cls, inst).Ok?
    ensures ExportKwargsAsWritten(map[], cls, inst).value.pythonPerFrameCallback == VStr("p")
    ensures ExportKwargs(map[], cls, inst).value.pythonPerFrameCallback == VStr("f")
  {
    KwargsOk(map[], cls, inst, "pythonPostJobCallback");
    KwargsOk(map[], cls, inst, "pythonPerFrameCallback");
    PerFrameCallbackAsWritten(map[], cls, inst);
    PerFrameCallback(map[], cls, inst);
  }

  // ---------------------------------------------------------------------
  // get_attribute_defs

  /** An attribute definition, by its key (or a separator's name, a label's text). */
  datatype AttrDef = Def(key: string) | Separator(name: string) | Label(text: string)

  /** The keys of the override definitions, in their order. */
  const OverrideKeys: seq<string> := [
    "eulerFilter", "renderableOnly", "stripNamespaces", "uvsOnly", "uvWrite", "verbose",
    "visibleOnly", "wholeFrameGeo", "worldSpace", "writeColorSets", "writeCreases",
    "writeFaceSets", "writeNormals", "writeUVSets", "writeVisibility", "preRoll",
    "preRollStartFrame", "dataFormat", "attr", "attrPrefix", "userAttr", "userAttrPrefix",
    "melPerFrameCallback", "melPostJobCallback", "pythonPerFrameCallback", "pythonPostJobCallback"]

  /** The override definitions among the first `n` whose key is listed in `overrides`, in definition order. */
  function Exposed(overrides: seq<string>, n: nat): (r: seq<AttrDef>)
    requires n <= |OverrideKeys|
    ensures forall d :: d in r <==> exists i :: 0 <= i < n && OverrideKeys[i] in overrides && d == Def(OverrideKeys[i])
  {
    if n == 0 then []
    else Exposed(overrides, n - 1) + (if OverrideKeys[n - 1] in overrides then [Def(OverrideKeys[n - 1])] else [])
  }

  function AttributeDefsSpec(base: seq<AttrDef>, overrides: seq<string>): seq<AttrDef> {
    if |overrides| == 0 then base
    else
      base + [Separator("sep_alembic_options"), Label("Alembic Options")]
      + Exposed(overrides, |OverrideKeys|) + [Separator("sep_alembic_options_end")]
  }

  /** `get_attribute_defs`: the base definitions, then (when overrides are set) the overridable ones between separators. */
  method AttributeDefs(base: seq<AttrDef>, overrides: seq<string>) returns (defs: seq<AttrDef>)
    ensures defs == AttributeDefsSpec(base, overrides)
  {
    defs := base;
    if |overrides| == 0 {
      return;
    }
    defs := defs + [Separator("sep_alembic_options"), Label("Alembic Options")];
    var head := defs;
    var i := 0;
    while i < |OverrideKeys|
      invariant 0 <= i <= |OverrideKeys|
      invariant defs == head + Exposed(overrides, i)
    {
      if OverrideKeys[i] in overrides {
        defs := defs + [Def(OverrideKeys[i])];
      }
      i := i + 1;
    }
    defs := defs + [Separator("sep_alembic_options_end")];
  }

  /** The definitions shown for a key: exactly the overridable keys the settings list. */
  lemma ExposedExactly(base: seq<AttrDef>, overrides: seq<string>, key: string)
    requires |overrides| > 0
    requires forall d :: d in base ==> !d.Def?
    ensures Def(key) in AttributeDefsSpec(base, overrides) <==> key in OverrideKeys && key in overrides
  {
    var e := Exposed(overrides, |OverrideKeys|);
    if key in OverrideKeys && key in overrides {
      var i :| 0 <= i < |OverrideKeys| && OverrideKeys[i] == key;
      assert Def(key) in e;
    }
  }

  /** Without overrides only the base definitions are shown. */
  lemma NoOverridesBase(base: seq<AttrDef>)
    ensures AttributeDefsSpec(base, []) == base
  { }

  // ---------------------------------------------------------------------
  // ExtractAnimation.get_members_and_roots

  /** The instance members whose name ends in `out_SET`, in order. */
  function OutSets(members: seq<string>): (r: seq<string>)
    ensures forall n :: n in r <==> n in members && EndsWith(n, "out_SET")
    decreases |members|
  {
    if |members| == 0 then []
    else
      var last := members[|members| - 1];
      OutSets(members[..|members| - 1]) + (if EndsWith(last, "out_SET") then [last] else [])
  }

  /**
   * `ExtractAnimation.get_members_and_roots`: the roots are the members of
   * the one `out_SET` and the nodes are the roots and their descendants;
   * anything but exactly one `out_SET` raises.
   */
  function MembersAndRoots(members: seq<string>, setMembers: string -> seq<string>,
                           descendants: seq<string> -> seq<string>): (r: Result<(seq<string>, seq<string>)>)
    ensures r.Ok? <==> |OutSets(members)| == 1
    ensures r.Ok? ==> exists s :: s in members && EndsWith(s, "out_SET") && r.value.1 == setMembers(s)
    ensures r.Ok? ==> r.value.0 == r.value.1 + descendants(r.value.1)
  {
    var outSets := OutSets(members);
    if |outSets| != 1 then Err("KnownPublishError: Couldn't find exactly one out_SET")
    else
      assert outSets[0] in outSets;
      var roots := setMembers(outSets[0]);
      Ok((roots + descendants(roots), roots))
  }

  /** Two `out_SET` members make the extraction raise. */
  lemma TwoOutSetsRaise(members: seq<string>, a: nat, b: nat, setMembers: string -> seq<string>,
                        descendants: seq<string> -> seq<string>)
    requires a < b < |members| && EndsWith(members[a], "out_SET") && EndsWith(members[b], "out_SET")
    ensures MembersAndRoots(members, setMembers, descendants).Err?
  {
    OutSetsCount(members, a, b);
  }

  lemma {:induction false} OutSetsCount(members: seq<string>, a: nat, b: nat)
    requires a < b < |members| && EndsWith(members[a], "out_SET") && EndsWith(members[b], "out_SET")
    ensures |OutSets(members)| >= 2
    decreases |members|
  {
    var init := members[..|members| - 1];
    if b < |members| - 1 {
      OutSetsCount(init, a, b);
    } else {
      assert members[a] == init[a];
      assert |OutSets(init)| >= 1 by { assert members[a] in OutSets(init); }
    }
  }
}

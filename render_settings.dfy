/**
 * Applying the studio's default render settings to a scene
 * (`RenderSettings` in lib_rendersettings.py).  The Maya attributes the
 * settings write are a map from `node.attribute` names to values held by a
 * `Scene` object; each `_set_*` step is a method that writes that map one
 * attribute at a time and is proved equal to a function describing the
 * whole write, about which the lemmas speak.  A Maya error part-way aborts
 * the step (`ok == false`) and keeps what was already written.
 */
module RenderSettings {
  import opened Strs
  import opened PyData
  import opened PyConv

  // ---------------------------------------------------------------------
  // Attribute names

  /** The `node.attribute` name of an attribute. */
  function Attr(node: string, name: string): string {
    node + "." + name
  }

  const VraySettings := "vraySettings"
  const RenderGlobals := "defaultRenderGlobals"

  /** `_image_prefix_nodes`: the attribute that holds each renderer's image prefix. */
  const ImagePrefixNodes: map<string, string> := map[
    "vray" := Attr(VraySettings, "fileNamePrefix"),
    "arnold" := Attr(RenderGlobals, "imageFilePrefix"),
    "renderman" := Attr("rmanGlobals", "imageFileFormat"),
    "redshift" := Attr(RenderGlobals, "imageFilePrefix"),
    "mayahardware2" := Attr(RenderGlobals, "imageFilePrefix")
  ]

  /** `get_image_prefix_attr`: None where the table lookup raises `KeyError`. */
  function GetImagePrefixAttr(renderer: string): Option<string> {
    if renderer in ImagePrefixNodes then Some(ImagePrefixNodes[renderer]) else None
  }

  /** `get_padding_attr`: V-Ray keeps its own padding, every other renderer the render globals'. */
  function GetPaddingAttr(renderer: string): string {
    if renderer == "vray" then Attr(VraySettings, "fileNamePadding")
    else Attr(RenderGlobals, "extensionPadding")
  }

  /** The node part of a `node.attribute` name. */
  function NodeOf(attr: string): string {
    Split(attr, '.')[0]
  }

  /** Exactly the five table renderers have a prefix attribute. */
  lemma ImagePrefixAttrDefined(renderer: string)
    ensures GetImagePrefixAttr(renderer).Some? <==>
      renderer in {"vray", "arnold", "renderman", "redshift", "mayahardware2"}
  {
  }

  /**
   * For every renderer with a prefix attribute except RenderMan, the padding
   * attribute sits on the same node as the prefix attribute.
   */
  lemma PaddingBesidePrefix(renderer: string)
    requires renderer in ImagePrefixNodes && renderer != "renderman"
    ensures NodeOf(GetPaddingAttr(renderer)) == NodeOf(ImagePrefixNodes[renderer])
  {
    if renderer == "vray" {
      assert '.' !in VraySettings;
      NodeOfIs(VraySettings, "fileNamePadding");
      NodeOfIs(VraySettings, "fileNamePrefix");
    } else {
      assert '.' !in RenderGlobals;
      NodeOfIs(RenderGlobals, "extensionPadding");
      NodeOfIs(RenderGlobals, "imageFilePrefix");
    }
  }

  lemma NodeOfIs(node: string, name: string)
    requires '.' !in node
    ensures NodeOf(Attr(node, name)) == node
  {
    SplitPrefix(node, name, '.');
  }

  // ---------------------------------------------------------------------
  // AOV separator and prefix substitution

  /** `_aov_chars`: the configured separator names. */
  const AovChars: map<string, string> := map["dot" := ".", "dash" := "-", "underscore" := "_"]

  /**
   * The separator character: the configured name looked up in
   * `_aov_chars`; a missing setting or an unknown name (`KeyError`) gives `_`.
   */
  function AovSeparator(configured: Option<string>): (sep: string)
    ensures sep == "." || sep == "-" || sep == "_"
  {
    if configured.Some? && configured.value in AovChars then AovChars[configured.value] else "_"
  }

  lemma AovSeparatorNames(name: string)
    ensures AovSeparator(Some(name)) ==
      if name == "dot" then "." else if name == "dash" then "-" else "_"
    ensures AovSeparator(None) == "_"
  {
  }

  const SeparatorToken := "{aov_separator}"

  /** `prefix.replace("{aov_separator}", aov_separator)`. */
  function FillSeparator(prefix: string, sep: string): string {
    Replace(prefix, SeparatorToken, sep)
  }

  /** A prefix with one separator token gets the separator in its place. */
  lemma FillSeparatorOnce(a: string, b: string, sep: string)
    requires '{' !in a && '{' !in b
    ensures FillSeparator(a + SeparatorToken + b, sep) == a + sep + b
  {
    ReplaceOnce(a, SeparatorToken, b, sep);
  }

  /** A prefix without the token is written as configured. */
  lemma FillSeparatorAbsent(prefix: string, sep: string)
    requires !Contains(prefix, SeparatorToken)
    ensures FillSeparator(prefix, sep) == prefix
  {
    ReplaceFree(prefix, SeparatorToken, sep);
  }

  // ---------------------------------------------------------------------
  // The scene's attributes

  type Attrs = map<string, Value>

  class Scene {
    var attrs: Attrs

    constructor(initial: Attrs)
      ensures attrs == initial
    {
      attrs := initial;
    }

    /** `cmds.setAttr(name, v)`. */
    method SetAttr(name: string, v: Value)
      modifies this
      ensures attrs == old(attrs)[name := v]
    {
      attrs := attrs[name := v];
    }

    /** `mel.eval("unifiedRenderGlobalsRevertToDefault")`: the attributes it resets take their defaults. */
    method RevertToDefaults(defaults: Attrs)
      modifies this
      ensures attrs == old(attrs) + defaults
    {
      attrs := attrs + defaults;
    }
  }

  // ---------------------------------------------------------------------
  // _set_global_output_settings

  const PaddingAttr := Attr(RenderGlobals, "extensionPadding")
  const AnimationAttr := Attr(RenderGlobals, "animation")

  function GlobalOutput(a: Attrs): Attrs {
    a[Attr(RenderGlobals, "outFormatControl") := VInt(0)]
     [AnimationAttr := VInt(1)]
     [Attr(RenderGlobals, "putFrameBeforeExt") := VInt(1)]
     [PaddingAttr := VInt(4)]
  }

  /** `_set_global_output_settings`: animation on, frame before extension, padding 4. */
  method SetGlobalOutputSettings(scene: Scene)
    modifies scene
    ensures scene.attrs == GlobalOutput(old(scene.attrs))
  {
    scene.SetAttr(Attr(RenderGlobals, "outFormatControl"), VInt(0));
    scene.SetAttr(AnimationAttr, VInt(1));
    scene.SetAttr(Attr(RenderGlobals, "putFrameBeforeExt"), VInt(1));
    scene.SetAttr(PaddingAttr, VInt(4));
  }

  /**
   * After the global output settings every renderer but V-Ray pads frames
   * to four digits and renders an animation; nothing else is touched.
   */
  lemma GlobalOutputPadding(a: Attrs, renderer: string)
    requires renderer != "vray"
    ensures GlobalOutput(a)[GetPaddingAttr(renderer)] == VInt(4)
    ensures GlobalOutput(a)[AnimationAttr] == VInt(1)
    ensures forall k :: k in a && NodeOf(k) != RenderGlobals ==> GlobalOutput(a)[k] == a[k]
  {
    assert '.' !in RenderGlobals;
    NodeOfIs(RenderGlobals, "outFormatControl");
    NodeOfIs(RenderGlobals, "animation");
    NodeOfIs(RenderGlobals, "putFrameBeforeExt");
    NodeOfIs(RenderGlobals, "extensionPadding");
  }

  // ---------------------------------------------------------------------
  // Redshift global illumination and image format

  const RedshiftOptions := "redshiftOptions"
  const GIEnabled := Attr(RedshiftOptions, "GIEnabled")
  const PrimaryGI := Attr(RedshiftOptions, "primaryGIEngine")
  const SecondaryGI := Attr(RedshiftOptions, "secondaryGIEngine")

  datatype Written = Written(attrs: Attrs, ok: bool)

  /**
   * The attribute writes of the GI block, in order: `int()` of an engine
   * setting that is not a number raises, keeping what was written before.
   */
  function RedshiftGI(a: Attrs, primary: string, secondary: string): Written {
    GIWrites(a, ParseInt(primary), ParseInt(secondary))
  }

  /** The GI writes once the engine settings have gone through `int()`. */
  function GIWrites(a: Attrs, primary: Option<int>, secondary: Option<int>): Written {
    match primary
    case None => Written(a, false)
    case Some(p) =>
      if p != 0 then
        var a1 := a[GIEnabled := VInt(1)];
        match secondary
        case None => Written(a1, false)
        case Some(s) =>
          var a2 := if s == 0 then a1[SecondaryGI := VInt(2)] else a1;
          Written(a2[PrimaryGI := VInt(p)][SecondaryGI := VInt(s)], true)
      else
        match secondary
        case None => Written(a, false)
        case Some(s) =>
          var a1 := if s != 0 then a[GIEnabled := VInt(1)][PrimaryGI := VInt(4)] else a[GIEnabled := VInt(0)];
          Written(a1[PrimaryGI := VInt(0)][SecondaryGI := VInt(s)], true)
  }

  /** The GI block of `_set_redshift_settings`. */
  method SetRedshiftGI(scene: Scene, primary: string, secondary: string) returns (ok: bool)
    modifies scene
    ensures Written(scene.attrs, ok) == RedshiftGI(old(scene.attrs), primary, secondary)
  {
    var p := ParseInt(primary);
    if p.None? {
      return false;
    }
    if p.value != 0 {
      scene.SetAttr(GIEnabled, VInt(1));
      var s := ParseInt(secondary);
      if s.None? {
        return false;
      }
      if s.value == 0 {
        scene.SetAttr(SecondaryGI, VInt(2));
      }
      scene.SetAttr(PrimaryGI, VInt(p.value));
      scene.SetAttr(SecondaryGI, VInt(s.value));
    } else {
      var s := ParseInt(secondary);
      if s.None? {
        return false;
      }
      if s.value != 0 {
        scene.SetAttr(GIEnabled, VInt(1));
        scene.SetAttr(PrimaryGI, VInt(4));
      } else {
        scene.SetAttr(GIEnabled, VInt(0));
      }
      scene.SetAttr(PrimaryGI, VInt(0));
      scene.SetAttr(SecondaryGI, VInt(s.value));
    }
    ok := true;
  }

  /**
   * With numeric engine settings, GI is enabled exactly when either engine
   * is non-zero, and both engines end up as configured: the fallbacks 4 and
   * 2 are always overwritten.
   */
  lemma RedshiftGIFinal(a: Attrs, primary: string, secondary: string)
    requires ParseInt(primary).Some? && ParseInt(secondary).Some?
    ensures var w := RedshiftGI(a, primary, secondary);
      var p, s := ParseInt(primary).value, ParseInt(secondary).value;
      w.ok
      && w.attrs[GIEnabled] == VInt(if p != 0 || s != 0 then 1 else 0)
      && w.attrs[PrimaryGI] == VInt(p)
      && w.attrs[SecondaryGI] == VInt(s)
  {
    GIWritesFinal(a, ParseInt(primary).value, ParseInt(secondary).value);
  }

  lemma GIWritesFinal(a: Attrs, p: int, s: int)
    ensures var w := GIWrites(a, Some(p), Some(s));
      w.ok
      && w.attrs[GIEnabled] == VInt(if p != 0 || s != 0 then 1 else 0)
      && w.attrs[PrimaryGI] == VInt(p)
      && w.attrs[SecondaryGI] == VInt(s)
  {
    GIAttrsDiffer();
  }

  lemma GIAttrsDiffer()
    ensures GIEnabled != PrimaryGI && GIEnabled != SecondaryGI && PrimaryGI != SecondaryGI
  {
    assert '.' !in RedshiftOptions;
    AttrDiffer(RedshiftOptions, "GIEnabled", RedshiftOptions, "primaryGIEngine");
    AttrDiffer(RedshiftOptions, "GIEnabled", RedshiftOptions, "secondaryGIEngine");
    AttrDiffer(RedshiftOptions, "primaryGIEngine", RedshiftOptions, "secondaryGIEngine");
  }

  /** Whether or not it completes, the GI block writes no attribute but the three GI ones. */
  lemma RedshiftGIFrame(a: Attrs, primary: string, secondary: string, k: string)
    requires k != GIEnabled && k != PrimaryGI && k != SecondaryGI
    ensures var w := RedshiftGI(a, primary, secondary);
      (k in w.attrs <==> k in a) && (k in a ==> w.attrs[k] == a[k])
  {
    GIWritesFrame(a, ParseInt(primary), ParseInt(secondary), k);
  }

  lemma GIWritesFrame(a: Attrs, primary: Option<int>, secondary: Option<int>, k: string)
    requires k != GIEnabled && k != PrimaryGI && k != SecondaryGI
    ensures var w := GIWrites(a, primary, secondary);
      (k in w.attrs <==> k in a) && (k in a ==> w.attrs[k] == a[k])
  {
  }

  /** A primary engine setting that is not a number aborts before any write. */
  lemma RedshiftGIInvalid(a: Attrs, primary: string, secondary: string)
    requires ParseInt(primary).None?
    ensures RedshiftGI(a, primary, secondary) == Written(a, false)
  {
  }

  /** The image formats Redshift numbers, in `redshiftOptions.imageFormat` order. */
  const RedshiftFormats := ["iff", "exr", "tif", "png", "tga", "jpg"]

  /** `img_exts.index(ext)`: None where `index` raises `ValueError`. */
  function RedshiftImageFormat(ext: string): Option<nat> {
    IndexOf(RedshiftFormats, ext)
  }

  /** The index names the extension; only the six known extensions have one. */
  lemma RedshiftImageFormatIndex(ext: string)
    ensures RedshiftImageFormat(ext).Some? ==> RedshiftFormats[RedshiftImageFormat(ext).value] == ext
    ensures RedshiftImageFormat(ext).None? <==> ext !in {"iff", "exr", "tif", "png", "tga", "jpg"}
    ensures ext == "exr" ==> RedshiftImageFormat(ext) == Some(1)
  {
    assert RedshiftFormats[1] == "exr" && RedshiftFormats[0] != "exr";
    assert ext in RedshiftFormats <==> ext in {"iff", "exr", "tif", "png", "tga", "jpg"};
  }

  // ---------------------------------------------------------------------
  // _additional_attribs_setter

  /** One configured additional option: an attribute name and its value text. */
  datatype AdditionalOption = AdditionalOption(attribute: string, value: string)

  /** How a value is written for an attribute type. */
  datatype Conversion = Write(v: Value) | Unsupported | Invalid

  /**
   * `long` and `bool` take `int(value)`, `string` takes `str(value)`, the
   * double types take `float(value)`; any other type is logged and skipped.
   * A conversion that raises is `Invalid`.
   */
  function Convert(attrType: string, value: string): Conversion {
    if attrType == "long" || attrType == "bool" then
      match ParseInt(value)
      case Some(n) => Write(VInt(n))
      case None => Invalid
    else if attrType == "string" then Write(VStr(value))
    else if attrType == "double" || attrType == "doubleAngle" || attrType == "doubleLinear" then
      match ParseFloat(value)
      case Some(t) => Write(VFloat(t))
      case None => Invalid
    else Unsupported
  }

  /**
   * An integer text is accepted for every numeric attribute type, as an
   * int for `long`/`bool` and as a float for the double types.
   */
  lemma ConvertNumeric(attrType: string, n: int)
    requires attrType in {"long", "bool", "double", "doubleAngle", "doubleLinear"}
    ensures Convert(attrType, IntToStr(n)).Write?
    ensures attrType in {"long", "bool"} ==> Convert(attrType, IntToStr(n)) == Write(VInt(n))
  {
    var t := IntToStr(n);
    if attrType == "long" || attrType == "bool" {
      ParseIntStr(n);
      assert ParseInt(t) == Some(n);
    } else {
      ParseFloatStr(n);
      assert ParseFloat(t) == Some(t);
      assert attrType != "long" && attrType != "bool" && attrType != "string";
      assert Convert(attrType, t) == Write(VFloat(t));
    }
  }

  /** A string attribute takes any value as it is; an unknown type is never written. */
  lemma ConvertOthers(attrType: string, value: string)
    ensures attrType == "string" ==> Convert(attrType, value) == Write(VStr(value))
    ensures attrType !in {"long", "bool", "string", "double", "doubleAngle", "doubleLinear"} ==>
      Convert(attrType, value) == Unsupported
  {
  }

  /** The attributes written so far, the attributes logged as unsupported, and whether no error was raised. */
  datatype Outcome = Outcome(attrs: Attrs, logged: seq<string>, ok: bool)

  /**
   * One iteration: `cmds.getAttr(attribute, type=True)` raises for an
   * attribute the scene does not have (`types` is that query's answer).
   */
  function ApplyOne(o: Outcome, item: AdditionalOption, types: map<string, string>): Outcome {
    if item.attribute !in types then Outcome(o.attrs, o.logged, false)
    else match Convert(types[item.attribute], item.value)
      case Write(v) => Outcome(o.attrs[item.attribute := v], o.logged, true)
      case Unsupported => Outcome(o.attrs, o.logged + [item.attribute], true)
      case Invalid => Outcome(o.attrs, o.logged, false)
  }

  /** The loop over the options, stopping at the first error. */
  function ApplyOptions(a: Attrs, items: seq<AdditionalOption>, types: map<string, string>): Outcome
    decreases |items|
  {
    if |items| == 0 then Outcome(a, [], true)
    else
      var o := ApplyOptions(a, items[..|items| - 1], types);
      if !o.ok then o else ApplyOne(o, items[|items| - 1], types)
  }

  /** Once an option has failed, the later ones change nothing. */
  lemma {:induction false} ApplyOptionsStuck(a: Attrs, items: seq<AdditionalOption>, types: map<string, string>, i: nat)
    requires i <= |items| && !ApplyOptions(a, items[..i], types).ok
    ensures ApplyOptions(a, items, types) == ApplyOptions(a, items[..i], types)
    decreases |items| - i
  {
    if i < |items| {
      var init := items[..|items| - 1];
      assert init[..i] == items[..i];
      ApplyOptionsStuck(a, init, types, i);
    } else {
      assert items[..i] == items;
    }
  }

  /** One more option: the loop's step. */
  lemma ApplyOptionsNext(a: Attrs, items: seq<AdditionalOption>, types: map<string, string>, i: nat)
    requires i < |items|
    ensures var o := ApplyOptions(a, items[..i], types);
      ApplyOptions(a, items[..i + 1], types) == if !o.ok then o else ApplyOne(o, items[i], types)
  {
    TakeTake(items, i);
  }

  method SetAdditionalAttribs(scene: Scene, items: seq<AdditionalOption>, types: map<string, string>)
    returns (logged: seq<string>, ok: bool)
    modifies scene
    ensures Outcome(scene.attrs, logged, ok) == ApplyOptions(old(scene.attrs), items, types)
  {
    ghost var a := scene.attrs;
    logged, ok := [], true;
    var i := 0;
    while i < |items| && ok
      invariant 0 <= i <= |items|
      invariant Outcome(scene.attrs, logged, ok) == ApplyOptions(a, items[..i], types)
    {
      var item := items[i];
      ApplyOptionsNext(a, items, types, i);
      if item.attribute !in types {
        ok := false;
      } else {
        var c := Convert(types[item.attribute], item.value);
        match c {
          case Write(v) => scene.SetAttr(item.attribute, v);
          case Unsupported => logged := logged + [item.attribute];
          case Invalid => ok := false;
        }
      }
      i := i + 1;
    }
    if !ok {
      ApplyOptionsStuck(a, items, types, i);
    }
    FullPrefix(items);
  }

  /** Attribute names of the options. */
  function OptionAttributes(items: seq<AdditionalOption>): set<string> {
    set i | 0 <= i < |items| :: items[i].attribute
  }

  /** An attribute no option names keeps its value. */
  lemma {:induction false} ApplyOptionsFrame(a: Attrs, items: seq<AdditionalOption>, types: map<string, string>, k: string)
    requires k !in OptionAttributes(items)
    ensures var r := ApplyOptions(a, items, types).attrs;
      (k in r <==> k in a) && (k in a ==> r[k] == a[k])
    decreases |items|
  {
    if |items| > 0 {
      var init := items[..|items| - 1];
      assert k !in OptionAttributes(init);
      ApplyOptionsFrame(a, init, types, k);
      assert items[|items| - 1].attribute != k;
    }
  }

  /** The options whose attribute type is not supported, in order. */
  function UnsupportedOptions(items: seq<AdditionalOption>, types: map<string, string>): seq<string>
    decreases |items|
  {
    if |items| == 0 then []
    else
      var last := items[|items| - 1];
      UnsupportedOptions(items[..|items| - 1], types)
        + (if last.attribute in types && Convert(types[last.attribute], last.value) == Unsupported
           then [last.attribute] else [])
  }

  /** When no option raises, exactly the unsupported ones are logged, in order. */
  lemma {:induction false} ApplyOptionsLogged(a: Attrs, items: seq<AdditionalOption>, types: map<string, string>)
    requires ApplyOptions(a, items, types).ok
    ensures ApplyOptions(a, items, types).logged == UnsupportedOptions(items, types)
    decreases |items|
  {
    if |items| > 0 {
      var init := items[..|items| - 1];
      ApplyOptionsLogged(a, init, types);
    }
  }

  /** When no option raises, the last option's attribute holds its converted value (if supported). */
  lemma ApplyOptionsLast(a: Attrs, items: seq<AdditionalOption>, types: map<string, string>)
    requires |items| > 0 && ApplyOptions(a, items, types).ok
    ensures var last := items[|items| - 1];
      last.attribute in types
      && (Convert(types[last.attribute], last.value).Write? ==>
            ApplyOptions(a, items, types).attrs[last.attribute] == Convert(types[last.attribute], last.value).v)
  {
  }

  // ---------------------------------------------------------------------
  // The renderer presets of the project settings

  datatype ArnoldPresets = ArnoldPresets(
    imageFormat: string, imagePrefix: string, tiled: bool, multilayerExr: bool,
    additional: seq<AdditionalOption>)

  datatype VrayPresets = VrayPresets(imageFormat: string, imagePrefix: string, additional: seq<AdditionalOption>)

  datatype RedshiftPresets = RedshiftPresets(
    primaryGIEngine: string, secondaryGIEngine: string, imageFormat: string, imagePrefix: string,
    additional: seq<AdditionalOption>)

  datatype RendermanPresets = RendermanPresets(
    imagePrefix: string, imageDir: string, imageDisplayDir: string, cryptomatteDir: string,
    watermarkDir: string, additional: seq<AdditionalOption>)

  /** `project_settings["maya"]["render_settings"]`, as far as these steps read it. */
  datatype ProjectRenderSettings = ProjectRenderSettings(
    aovSeparator: Option<string>, arnold: ArnoldPresets, vray: VrayPresets,
    redshift: RedshiftPresets, renderman: RendermanPresets)

  /** `self._image_prefixes`: the configured prefix of each renderer that has settings. */
  function ImagePrefixes(s: ProjectRenderSettings): map<string, string> {
    map["vray" := s.vray.imagePrefix, "arnold" := s.arnold.imagePrefix,
        "renderman" := s.renderman.imagePrefix, "redshift" := s.redshift.imagePrefix]
  }

  /**
   * What the scene says, as far as these steps query it: the names of the
   * attributes' types (`cmds.getAttr(..., type=True)`), the V-Ray settings
   * node, the labels of the V-Ray separator menu when that menu exists,
   * the folder's resolution, the cameras (`cmds.ls(type="camera")`), the
   * values `unifiedRenderGlobalsRevertToDefault` resets attributes to, the
   * folder's animation range as `get_frame_range` gives it (None without
   * frame data), and the node found or created for each configured
   * RenderMan display filter and sample filter, in order.
   */
  datatype SceneFacts = SceneFacts(
    types: map<string, string>, vrayNode: string, vrayMenu: Option<seq<string>>,
    width: int, height: int,
    cameras: seq<string>, revertDefaults: Attrs, animationRange: Option<(Value, Value)>,
    displayFilterNodes: seq<string>, sampleFilterNodes: seq<string>)

  const ResolutionWidth := Attr("defaultResolution", "width")
  const ResolutionHeight := Attr("defaultResolution", "height")
  const ImageFilePrefix := Attr(RenderGlobals, "imageFilePrefix")

  /** Two attribute names on dot-free nodes are equal only for the same node and attribute. */
  lemma AttrInjective(n1: string, a1: string, n2: string, a2: string)
    requires '.' !in n1 && '.' !in n2
    requires Attr(n1, a1) == Attr(n2, a2)
    ensures n1 == n2 && a1 == a2
  {
    NodeOfIs(n1, a1);
    NodeOfIs(n2, a2);
    assert Attr(n1, a1)[|n1| + 1..] == a1;
    assert Attr(n2, a2)[|n2| + 1..] == a2;
  }

  // ---------------------------------------------------------------------
  // The image prefix write of set_default_renderer_settings

  /**
   * As written: a renderer in `_image_prefix_nodes` gets its configured
   * prefix with the separator filled in; `self._image_prefixes[renderer]`
   * raises `KeyError` for a table renderer without configured prefix.
   */
  function WritePrefixAsWritten(a: Attrs, s: ProjectRenderSettings, renderer: string, sep: string): Written {
    if renderer in ImagePrefixNodes then
      if renderer in ImagePrefixes(s) then
        Written(a[ImagePrefixNodes[renderer] := VStr(FillSeparator(ImagePrefixes(s)[renderer], sep))], true)
      else Written(a, false)
    else Written(a, true)
  }

  /** Maya Hardware 2.0 has a prefix attribute but no configured prefix: setting the defaults raises. */
  lemma MayaHardwarePrefixRaises(a: Attrs, s: ProjectRenderSettings, sep: string)
    ensures !WritePrefixAsWritten(a, s, "mayahardware2", sep).ok
  {
  }

  /** The intended write: a renderer without a configured prefix is left as it is. */
  function WritePrefix(a: Attrs, s: ProjectRenderSettings, renderer: string, sep: string): (r: Attrs)
    ensures renderer in ImagePrefixNodes && renderer in ImagePrefixes(s) ==>
      r == a[ImagePrefixNodes[renderer] := VStr(FillSeparator(ImagePrefixes(s)[renderer], sep))]
    ensures !(renderer in ImagePrefixNodes && renderer in ImagePrefixes(s)) ==> r == a
  {
    if renderer in ImagePrefixNodes && renderer in ImagePrefixes(s) then
      a[ImagePrefixNodes[renderer] := VStr(FillSeparator(ImagePrefixes(s)[renderer], sep))]
    else a
  }

  /** The intended write agrees with the code wherever the code does not raise. */
  lemma WritePrefixAgrees(a: Attrs, s: ProjectRenderSettings, renderer: string, sep: string)
    ensures WritePrefixAsWritten(a, s, renderer, sep).ok <==> renderer != "mayahardware2"
    ensures WritePrefixAsWritten(a, s, renderer, sep).ok ==>
      WritePrefixAsWritten(a, s, renderer, sep).attrs == WritePrefix(a, s, renderer, sep)
  {
  }

  // ---------------------------------------------------------------------
  // _set_arnold_settings

  /** A camera's `.renderable` attribute. */
  function RenderableAttr(camera: string): string {
    Attr(camera, "renderable")
  }

  /** Every camera has a renderable flag to save (`cmds.getAttr` raises otherwise). */
  predicate RenderableSaved(a: Attrs, cameras: seq<string>) {
    forall i :: 0 <= i < |cameras| ==> RenderableAttr(cameras[i]) in a
  }

  /** Each camera's flag in `saved` (`renderable_by_camera`) set back in `b`, camera by camera. */
  function RestoreFlags(b: Attrs, saved: Attrs, cameras: seq<string>): Attrs
    requires RenderableSaved(saved, cameras)
    decreases |cameras|
  {
    if |cameras| == 0 then b
    else
      var init := cameras[..|cameras| - 1];
      assert RenderableSaved(saved, init) by {
        forall i | 0 <= i < |init| ensures RenderableAttr(init[i]) in saved {
          assert init[i] == cameras[i];
        }
      }
      var k := RenderableAttr(cameras[|cameras| - 1]);
      RestoreFlags(b, saved, init)[k := saved[k]]
  }

  /**
   * The render globals reverted to their defaults, and every camera's
   * renderable flag set back to the value it had before the revert.
   */
  function Reverted(a: Attrs, f: SceneFacts): Attrs
    requires RenderableSaved(a, f.cameras)
  {
    RestoreFlags(a + f.revertDefaults, a, f.cameras)
  }

  /** A listed camera's flag after the restore is the saved one. */
  lemma {:induction false} RestoreFlagsListed(b: Attrs, saved: Attrs, cameras: seq<string>, camera: string)
    requires RenderableSaved(saved, cameras) && camera in cameras
    ensures RenderableAttr(camera) in RestoreFlags(b, saved, cameras)
    ensures RestoreFlags(b, saved, cameras)[RenderableAttr(camera)] == saved[RenderableAttr(camera)]
    decreases |cameras|
  {
    var init := cameras[..|cameras| - 1];
    var last := cameras[|cameras| - 1];
    assert RenderableSaved(saved, init) by {
      forall i | 0 <= i < |init| ensures RenderableAttr(init[i]) in saved {
        assert init[i] == cameras[i];
      }
    }
    if RenderableAttr(camera) != RenderableAttr(last) {
      assert camera in init by {
        var i :| 0 <= i < |cameras| && cameras[i] == camera;
        assert i < |cameras| - 1;
        assert init[i] == camera;
      }
      RestoreFlagsListed(b, saved, init, camera);
    }
  }

  /** The revert never changes whether a camera renders. */
  lemma RevertKeepsRenderable(a: Attrs, f: SceneFacts, camera: string)
    requires RenderableSaved(a, f.cameras) && camera in f.cameras
    ensures RenderableAttr(camera) in Reverted(a, f)
    ensures Reverted(a, f)[RenderableAttr(camera)] == a[RenderableAttr(camera)]
  {
    RestoreFlagsListed(a + f.revertDefaults, a, f.cameras, camera);
  }

  /**
   * The save, the revert and the restore of `_set_arnold_settings`: the
   * flags are read first, the revert runs, then each saved flag is set
   * back.
   */
  method RevertRenderGlobals(scene: Scene, f: SceneFacts)
    requires RenderableSaved(scene.attrs, f.cameras)
    modifies scene
    ensures scene.attrs == Reverted(old(scene.attrs), f)
  {
    var saved := scene.attrs;
    scene.RevertToDefaults(f.revertDefaults);
    for i := 0 to |f.cameras|
      invariant RenderableSaved(saved, f.cameras[..i])
      invariant scene.attrs == RestoreFlags(saved + f.revertDefaults, saved, f.cameras[..i])
    {
      var k := RenderableAttr(f.cameras[i]);
      assert f.cameras[..i + 1][..i] == f.cameras[..i];
      assert f.cameras[..i + 1][i] == f.cameras[i];
      scene.SetAttr(k, saved[k]);
    }
    assert f.cameras[..|f.cameras|] == f.cameras;
  }

  const StartFrameAttr := Attr(RenderGlobals, "startFrame")
  const EndFrameAttr := Attr(RenderGlobals, "endFrame")

  /** `reset_frame_range(playback=False, fps=False, render=True)`: the render range becomes the folder's animation range. */
  function ResetRenderRange(a: Attrs, range: Option<(Value, Value)>): Attrs {
    match range
    case None => a
    case Some((start, end)) => a[StartFrameAttr := start][EndFrameAttr := end]
  }

  method ResetFrameRange(scene: Scene, range: Option<(Value, Value)>)
    modifies scene
    ensures scene.attrs == ResetRenderRange(old(scene.attrs), range)
  {
    if range.Some? {
      scene.SetAttr(StartFrameAttr, range.value.0);
      scene.SetAttr(EndFrameAttr, range.value.1);
    }
  }

  /**
   * The attribute writes of `_set_arnold_settings` (the AOV list is
   * outside this model): the cameras' flags saved, the render globals
   * reverted and the flags restored; the resolution, the global output
   * settings, the raw configured prefix, the driver's format, tiling and
   * AOV merging; the additional options; then the render frame range.
   */
  function ArnoldWrites(a: Attrs, p: ArnoldPresets, f: SceneFacts): Outcome {
    if !RenderableSaved(a, f.cameras) then Outcome(a, [], false)
    else
      var a1 := GlobalOutput(Reverted(a, f)[ResolutionWidth := VInt(f.width)][ResolutionHeight := VInt(f.height)]);
      var a2 := a1[ImageFilePrefix := VStr(p.imagePrefix)]
                  [Attr("defaultArnoldDriver", "ai_translator") := VStr(p.imageFormat)]
                  [Attr("defaultArnoldDriver", "exrTiled") := VBool(p.tiled)]
                  [Attr("defaultArnoldDriver", "mergeAOVs") := VBool(p.multilayerExr)];
      var o := ApplyOptions(a2, p.additional, f.types);
      if !o.ok then o else Outcome(ResetRenderRange(o.attrs, f.animationRange), o.logged, true)
  }

  /**
   * When Arnold's settings complete, the render range is the folder's
   * animation range, even where an additional option set the start or
   * end frame.
   */
  lemma ArnoldRenderRange(a: Attrs, p: ArnoldPresets, f: SceneFacts)
    requires ArnoldWrites(a, p, f).ok && f.animationRange.Some?
    ensures var r := ArnoldWrites(a, p, f).attrs;
      StartFrameAttr in r && EndFrameAttr in r
      && r[StartFrameAttr] == f.animationRange.value.0 && r[EndFrameAttr] == f.animationRange.value.1
  {
    assert '.' !in RenderGlobals;
    AttrDiffer(RenderGlobals, "startFrame", RenderGlobals, "endFrame");
  }

  method SetArnoldSettings(scene: Scene, p: ArnoldPresets, f: SceneFacts) returns (logged: seq<string>, ok: bool)
    modifies scene
    ensures Outcome(scene.attrs, logged, ok) == ArnoldWrites(old(scene.attrs), p, f)
  {
    if !RenderableSaved(scene.attrs, f.cameras) {
      return [], false;
    }
    RevertRenderGlobals(scene, f);
    scene.SetAttr(ResolutionWidth, VInt(f.width));
    scene.SetAttr(ResolutionHeight, VInt(f.height));
    SetGlobalOutputSettings(scene);
    scene.SetAttr(ImageFilePrefix, VStr(p.imagePrefix));
    scene.SetAttr(Attr("defaultArnoldDriver", "ai_translator"), VStr(p.imageFormat));
    scene.SetAttr(Attr("defaultArnoldDriver", "exrTiled"), VBool(p.tiled));
    scene.SetAttr(Attr("defaultArnoldDriver", "mergeAOVs"), VBool(p.multilayerExr));
    logged, ok := SetAdditionalAttribs(scene, p.additional, f.types);
    if ok {
      ResetFrameRange(scene, f.animationRange);
    }
  }

  // ---------------------------------------------------------------------
  // _set_vray_settings

  /**
   * The attribute writes of `_set_vray_settings` on the V-Ray settings
   * node: the separator menu, when it exists, must offer the separator
   * (`CreatorError` otherwise); then the element separator, the format,
   * animation, the resolution and the additional options.
   */
  function VrayWrites(a: Attrs, p: VrayPresets, sep: string, f: SceneFacts): Outcome {
    if f.vrayMenu.Some? && IndexOf(f.vrayMenu.value, sep).None? then Outcome(a, [], false)
    else
      var n := f.vrayNode;
      var a1 := a[Attr(n, "fileNameRenderElementSeparator") := VStr(sep)]
                 [Attr(n, "imageFormatStr") := VStr(p.imageFormat)]
                 [Attr(n, "animType") := VInt(1)]
                 [Attr(n, "width") := VInt(f.width)]
                 [Attr(n, "height") := VInt(f.height)];
      ApplyOptions(a1, p.additional, f.types)
  }

  method SetVraySettings(scene: Scene, p: VrayPresets, sep: string, f: SceneFacts) returns (logged: seq<string>, ok: bool)
    modifies scene
    ensures Outcome(scene.attrs, logged, ok) == VrayWrites(old(scene.attrs), p, sep, f)
  {
    if f.vrayMenu.Some? && IndexOf(f.vrayMenu.value, sep).None? {
      return [], false;
    }
    var n := f.vrayNode;
    scene.SetAttr(Attr(n, "fileNameRenderElementSeparator"), VStr(sep));
    scene.SetAttr(Attr(n, "imageFormatStr"), VStr(p.imageFormat));
    scene.SetAttr(Attr(n, "animType"), VInt(1));
    scene.SetAttr(Attr(n, "width"), VInt(f.width));
    scene.SetAttr(Attr(n, "height"), VInt(f.height));
    logged, ok := SetAdditionalAttribs(scene, p.additional, f.types);
  }

  /** The separator menu rejects a separator exactly when it exists and does not list it. */
  lemma VrayMenuCheck(a: Attrs, p: VrayPresets, sep: string, f: SceneFacts)
    requires f.vrayMenu.Some? && sep !in f.vrayMenu.value
    ensures VrayWrites(a, p, sep, f) == Outcome(a, [], false)
  {
  }

  // ---------------------------------------------------------------------
  // _set_redshift_settings

  const RedshiftImageFormatAttr := Attr(RedshiftOptions, "imageFormat")

  /**
   * The attribute writes of `_set_redshift_settings` (the AOV list is
   * outside this model): the GI block, the image format index (an unknown
   * extension raises `ValueError`), the global output settings, the format,
   * the resolution and the additional options.
   */
  function RedshiftWrites(a: Attrs, p: RedshiftPresets, f: SceneFacts): Outcome {
    var gi := RedshiftGI(a, p.primaryGIEngine, p.secondaryGIEngine);
    if !gi.ok then Outcome(gi.attrs, [], false)
    else match RedshiftImageFormat(p.imageFormat)
      case None => Outcome(gi.attrs, [], false)
      case Some(idx) =>
        var a1 := GlobalOutput(gi.attrs)[RedshiftImageFormatAttr := VInt(idx)]
                    [ResolutionWidth := VInt(f.width)][ResolutionHeight := VInt(f.height)];
        ApplyOptions(a1, p.additional, f.types)
  }

  method SetRedshiftSettings(scene: Scene, p: RedshiftPresets, f: SceneFacts) returns (logged: seq<string>, ok: bool)
    modifies scene
    ensures Outcome(scene.attrs, logged, ok) == RedshiftWrites(old(scene.attrs), p, f)
  {
    ok := SetRedshiftGI(scene, p.primaryGIEngine, p.secondaryGIEngine);
    if !ok {
      return [], false;
    }
    var idx := RedshiftImageFormat(p.imageFormat);
    if idx.None? {
      return [], false;
    }
    SetGlobalOutputSettings(scene);
    scene.SetAttr(RedshiftImageFormatAttr, VInt(idx.value));
    scene.SetAttr(ResolutionWidth, VInt(f.width));
    scene.SetAttr(ResolutionHeight, VInt(f.height));
    logged, ok := SetAdditionalAttribs(scene, p.additional, f.types);
  }

  // ---------------------------------------------------------------------
  // _set_renderman_settings

  /**
   * The file name given to a RenderMan display filter node: an image
   * display filter gets the configured directory with the separator filled in.
   */
  function DisplayFilterFile(node: string, p: RendermanPresets, sep: string): Option<string> {
    if StartsWith(node, "PxrImageDisplayFilter") then Some(FillSeparator(p.imageDisplayDir, sep)) else None
  }

  /** The same for a sample filter node: cryptomatte and watermark filters get their directories. */
  function SampleFilterFile(node: string, p: RendermanPresets, sep: string): Option<string> {
    if StartsWith(node, "PxrCryptomatte") then Some(FillSeparator(p.cryptomatteDir, sep))
    else if StartsWith(node, "PxrWatermarkFilter") then Some(FillSeparator(p.watermarkDir, sep))
    else None
  }

  /** The default cryptomatte directory layout gets the separator after the layer token. */
  lemma CryptomatteFile(node: string, p: RendermanPresets, sep: string, layer: string, rest: string)
    requires StartsWith(node, "PxrCryptomatte") && '{' !in layer && '{' !in rest
    requires p.cryptomatteDir == layer + SeparatorToken + rest
    ensures SampleFilterFile(node, p, sep) == Some(layer + sep + rest)
  {
    FillSeparatorOnce(layer, rest, sep);
  }

  /** The two kinds of RenderMan filter the settings configure. */
  datatype FilterKind = DisplayFilter | SampleFilter

  function FilterFile(kind: FilterKind, node: string, p: RendermanPresets, sep: string): Option<string> {
    if kind == DisplayFilter then DisplayFilterFile(node, p, sep) else SampleFilterFile(node, p, sep)
  }

  /** The `.filename` writes of one filter loop, node by node. */
  function FilterFileWrites(a: Attrs, kind: FilterKind, nodes: seq<string>, p: RendermanPresets, sep: string): Attrs
    decreases |nodes|
  {
    if |nodes| == 0 then a
    else
      var a1 := FilterFileWrites(a, kind, nodes[..|nodes| - 1], p, sep);
      var node := nodes[|nodes| - 1];
      match FilterFile(kind, node, p, sep)
      case None => a1
      case Some(file) => a1[Attr(node, "filename") := VStr(file)]
  }

  /**
   * The loop over the configured filters: each node found or created
   * gets its file name when it is a kind of filter that has one (the
   * `message` connections to `rmanGlobals` are outside this model).
   */
  method SetFilterFiles(scene: Scene, kind: FilterKind, nodes: seq<string>, p: RendermanPresets, sep: string)
    modifies scene
    ensures scene.attrs == FilterFileWrites(old(scene.attrs), kind, nodes, p, sep)
  {
    ghost var a := scene.attrs;
    for i := 0 to |nodes|
      invariant scene.attrs == FilterFileWrites(a, kind, nodes[..i], p, sep)
    {
      assert nodes[..i + 1][..i] == nodes[..i];
      var file := FilterFile(kind, nodes[i], p, sep);
      if file.Some? {
        scene.SetAttr(Attr(nodes[i], "filename"), VStr(file.value));
      }
    }
    assert nodes[..|nodes|] == nodes;
  }

  /** Node names never hold a `.`. */
  predicate DotFree(nodes: seq<string>) {
    forall i :: 0 <= i < |nodes| ==> '.' !in nodes[i]
  }

  /**
   * A filter node in the list ends up with its kind's file name, and every
   * other attribute on a dot-free node keeps its value.
   */
  lemma {:induction false} FilterFileWritesFrame(a: Attrs, kind: FilterKind, nodes: seq<string>, p: RendermanPresets,
                                                 sep: string, node: string, name: string)
    requires DotFree(nodes) && '.' !in node
    ensures var r := FilterFileWrites(a, kind, nodes, p, sep);
      var k := Attr(node, name);
      if name == "filename" && node in nodes && FilterFile(kind, node, p, sep).Some?
      then k in r && r[k] == VStr(FilterFile(kind, node, p, sep).value)
      else (k in r <==> k in a) && (k in a ==> r[k] == a[k])
    decreases |nodes|
  {
    if |nodes| > 0 {
      var init := nodes[..|nodes| - 1];
      var last := nodes[|nodes| - 1];
      assert DotFree(init);
      FilterFileWritesFrame(a, kind, init, p, sep, node, name);
      assert node in nodes <==> node in init || node == last;
      if node != last || name != "filename" {
        AttrDiffer(node, name, last, "filename");
      }
    }
  }

  /**
   * The attribute writes of the RenderMan branch: the image output
   * directory, the display and then the sample filters' file names, the
   * global output settings, the resolution and the additional options.
   */
  function RendermanWrites(a: Attrs, p: RendermanPresets, sep: string, f: SceneFacts): Outcome {
    var a1 := a[Attr("rmanGlobals", "imageOutputDir") := VStr(p.imageDir)];
    var a2 := FilterFileWrites(FilterFileWrites(a1, DisplayFilter, f.displayFilterNodes, p, sep),
                               SampleFilter, f.sampleFilterNodes, p, sep);
    var a3 := GlobalOutput(a2)[ResolutionWidth := VInt(f.width)][ResolutionHeight := VInt(f.height)];
    ApplyOptions(a3, p.additional, f.types)
  }

  method SetRendermanSettings(scene: Scene, p: RendermanPresets, sep: string, f: SceneFacts)
    returns (logged: seq<string>, ok: bool)
    modifies scene
    ensures Outcome(scene.attrs, logged, ok) == RendermanWrites(old(scene.attrs), p, sep, f)
  {
    scene.SetAttr(Attr("rmanGlobals", "imageOutputDir"), VStr(p.imageDir));
    SetFilterFiles(scene, DisplayFilter, f.displayFilterNodes, p, sep);
    SetFilterFiles(scene, SampleFilter, f.sampleFilterNodes, p, sep);
    SetGlobalOutputSettings(scene);
    scene.SetAttr(ResolutionWidth, VInt(f.width));
    scene.SetAttr(ResolutionHeight, VInt(f.height));
    logged, ok := SetAdditionalAttribs(scene, p.additional, f.types);
  }

  // ---------------------------------------------------------------------
  // set_default_renderer_settings

  const CurrentRenderer := Attr(RenderGlobals, "currentRenderer")

  /** The renderer to configure: the given one, else the scene's current renderer in lower case. */
  function ResolveRenderer(a: Attrs, renderer: string): Option<string> {
    if renderer != "" then Some(renderer)
    else if CurrentRenderer in a && a[CurrentRenderer].VStr? then Some(Lower(a[CurrentRenderer].s))
    else None
  }

  /**
   * The whole of `set_default_renderer_settings` as written: the `KeyError`
   * of the prefix lookup ends it before any attribute is set.
   */
  function Defaults(a: Attrs, s: ProjectRenderSettings, renderer: string, f: SceneFacts): Outcome {
    match ResolveRenderer(a, renderer)
    case None => Outcome(a, [], false)
    case Some(r) =>
      var sep := AovSeparator(s.aovSeparator);
      var w := WritePrefixAsWritten(a, s, r, sep);
      if !w.ok then Outcome(a, [], false)
      else
      var a1 := w.attrs;
      if r == "arnold" then ArnoldWrites(a1, s.arnold, f)
      else if r == "vray" then VrayWrites(a1, s.vray, sep, f)
      else if r == "redshift" then RedshiftWrites(a1, s.redshift, f)
      else if r == "renderman" then RendermanWrites(a1, s.renderman, sep, f)
      else Outcome(a1, [], true)
  }

  method SetDefaultRendererSettings(scene: Scene, s: ProjectRenderSettings, renderer: string, f: SceneFacts)
    returns (logged: seq<string>, ok: bool)
    modifies scene
    ensures Outcome(scene.attrs, logged, ok) == Defaults(old(scene.attrs), s, renderer, f)
  {
    var r := ResolveRenderer(scene.attrs, renderer);
    if r.None? {
      return [], false;
    }
    var sep := AovSeparator(s.aovSeparator);
    var w := WritePrefixAsWritten(scene.attrs, s, r.value, sep);
    if !w.ok {
      return [], false;
    }
    scene.attrs := w.attrs;
    if r.value == "arnold" {
      logged, ok := SetArnoldSettings(scene, s.arnold, f);
    } else if r.value == "vray" {
      logged, ok := SetVraySettings(scene, s.vray, sep, f);
    } else if r.value == "redshift" {
      logged, ok := SetRedshiftSettings(scene, s.redshift, f);
    } else if r.value == "renderman" {
      logged, ok := SetRendermanSettings(scene, s.renderman, sep, f);
    } else {
      logged, ok := [], true;
    }
  }

  /** Setting the defaults for Maya Hardware 2.0 raises before any attribute is written. */
  lemma DefaultsMayaHardwareRaises(a: Attrs, s: ProjectRenderSettings, f: SceneFacts)
    ensures !Defaults(a, s, "mayahardware2", f).ok
    ensures Defaults(a, s, "mayahardware2", f).attrs == a
  {
    MayaHardwarePrefixRaises(a, s, AovSeparator(s.aovSeparator));
  }

  /**
   * Arnold ends up with its raw configured prefix: `_set_arnold_settings`
   * overwrites the prefix written with the separator filled in, unless an
   * additional option names the prefix attribute.
   */
  lemma ArnoldKeepsRawPrefix(a: Attrs, s: ProjectRenderSettings, f: SceneFacts)
    requires RenderableSaved(a, f.cameras)
    requires ImageFilePrefix !in OptionAttributes(s.arnold.additional)
    ensures var r := Defaults(a, s, "arnold", f).attrs;
      ImageFilePrefix in r && r[ImageFilePrefix] == VStr(s.arnold.imagePrefix)
  {
    var a1 := WritePrefixAsWritten(a, s, "arnold", AovSeparator(s.aovSeparator)).attrs;
    assert RenderableSaved(a1, f.cameras);
    ArnoldWritesPrefix(a1, s.arnold, f);
  }

  /** `_set_arnold_settings` leaves the prefix it is configured with, unless an additional option names it. */
  lemma ArnoldWritesPrefix(a: Attrs, p: ArnoldPresets, f: SceneFacts)
    requires RenderableSaved(a, f.cameras)
    requires ImageFilePrefix !in OptionAttributes(p.additional)
    ensures var r := ArnoldWrites(a, p, f).attrs;
      ImageFilePrefix in r && r[ImageFilePrefix] == VStr(p.imagePrefix)
  {
    RangeAttrsDiffer();
    var g := GlobalOutput(Reverted(a, f)[ResolutionWidth := VInt(f.width)][ResolutionHeight := VInt(f.height)]);
    var a2 := g[ImageFilePrefix := VStr(p.imagePrefix)]
               [Attr("defaultArnoldDriver", "ai_translator") := VStr(p.imageFormat)]
               [Attr("defaultArnoldDriver", "exrTiled") := VBool(p.tiled)]
               [Attr("defaultArnoldDriver", "mergeAOVs") := VBool(p.multilayerExr)];
    assert a2[ImageFilePrefix] == VStr(p.imagePrefix) by {
      DriverAttrsDiffer();
    }
    ApplyOptionsFrame(a2, p.additional, f.types, ImageFilePrefix);
  }

  /**
   * The evidently intended Arnold writes: the prefix `_set_arnold_settings`
   * writes keeps the separator filled in, as every other renderer's does.
   */
  function ArnoldWritesIntended(a: Attrs, p: ArnoldPresets, sep: string, f: SceneFacts): Outcome {
    ArnoldWrites(a, p.(imagePrefix := FillSeparator(p.imagePrefix, sep)), f)
  }

  /** With the intended writes Arnold ends up with the separator filled in, like V-Ray, Redshift and RenderMan. */
  lemma ArnoldIntendedFilledPrefix(a: Attrs, p: ArnoldPresets, sep: string, f: SceneFacts)
    requires RenderableSaved(a, f.cameras)
    requires ImageFilePrefix !in OptionAttributes(p.additional)
    ensures var r := ArnoldWritesIntended(a, p, sep, f).attrs;
      ImageFilePrefix in r && r[ImageFilePrefix] == VStr(FillSeparator(p.imagePrefix, sep))
  {
    ArnoldWritesPrefix(a, p.(imagePrefix := FillSeparator(p.imagePrefix, sep)), f);
  }

  /** The two differ only for a prefix holding the separator token: without it they write the same. */
  lemma ArnoldIntendedAgrees(a: Attrs, p: ArnoldPresets, sep: string, f: SceneFacts)
    requires !Contains(p.imagePrefix, SeparatorToken)
    ensures ArnoldWritesIntended(a, p, sep, f) == ArnoldWrites(a, p, f)
  {
    FillSeparatorAbsent(p.imagePrefix, sep);
    assert p.(imagePrefix := FillSeparator(p.imagePrefix, sep)) == p;
  }

  /** Neither the prefix nor the padding is one of the render range attributes. */
  lemma RangeAttrsDiffer()
    ensures ImageFilePrefix != StartFrameAttr && ImageFilePrefix != EndFrameAttr
    ensures PaddingAttr != StartFrameAttr && PaddingAttr != EndFrameAttr
  {
    assert '.' !in RenderGlobals;
    AttrDiffer(RenderGlobals, "imageFilePrefix", RenderGlobals, "startFrame");
    AttrDiffer(RenderGlobals, "imageFilePrefix", RenderGlobals, "endFrame");
    AttrDiffer(RenderGlobals, "extensionPadding", RenderGlobals, "startFrame");
    AttrDiffer(RenderGlobals, "extensionPadding", RenderGlobals, "endFrame");
  }

  lemma DriverAttrsDiffer()
    ensures ImageFilePrefix != Attr("defaultArnoldDriver", "ai_translator")
    ensures ImageFilePrefix != Attr("defaultArnoldDriver", "exrTiled")
    ensures ImageFilePrefix != Attr("defaultArnoldDriver", "mergeAOVs")
  {
    assert '.' !in RenderGlobals && '.' !in "defaultArnoldDriver";
    assert RenderGlobals != "defaultArnoldDriver";
    if ImageFilePrefix == Attr("defaultArnoldDriver", "ai_translator") {
      AttrInjective(RenderGlobals, "imageFilePrefix", "defaultArnoldDriver", "ai_translator");
    }
    if ImageFilePrefix == Attr("defaultArnoldDriver", "exrTiled") {
      AttrInjective(RenderGlobals, "imageFilePrefix", "defaultArnoldDriver", "exrTiled");
    }
    if ImageFilePrefix == Attr("defaultArnoldDriver", "mergeAOVs") {
      AttrInjective(RenderGlobals, "imageFilePrefix", "defaultArnoldDriver", "mergeAOVs");
    }
  }

  /** Attributes on dot-free nodes differ when their nodes or their names differ. */
  lemma AttrDiffer(n1: string, a1: string, n2: string, a2: string)
    requires '.' !in n1 && '.' !in n2 && (n1 != n2 || a1 != a2)
    ensures Attr(n1, a1) != Attr(n2, a2)
  {
    if Attr(n1, a1) == Attr(n2, a2) {
      AttrInjective(n1, a1, n2, a2);
    }
  }

  /** The global output settings leave every attribute off the render globals node alone. */
  lemma GlobalOutputFrame(a: Attrs, node: string, name: string)
    requires '.' !in node && node != RenderGlobals
    ensures var k := Attr(node, name);
      (k in GlobalOutput(a) <==> k in a) && (k in a ==> GlobalOutput(a)[k] == a[k])
  {
    assert '.' !in RenderGlobals;
    AttrDiffer(node, name, RenderGlobals, "outFormatControl");
    AttrDiffer(node, name, RenderGlobals, "animation");
    AttrDiffer(node, name, RenderGlobals, "putFrameBeforeExt");
    AttrDiffer(node, name, RenderGlobals, "extensionPadding");
  }

  /** The attributes V-Ray's settings write on its settings node. */
  const VrayNodeAttrs := {"fileNameRenderElementSeparator", "imageFormatStr", "animType", "width", "height"}

  /** V-Ray's settings keep every attribute neither they nor the options name. */
  lemma VrayWritesFrame(a: Attrs, p: VrayPresets, sep: string, f: SceneFacts, node: string, name: string)
    requires '.' !in f.vrayNode && '.' !in node && (node != f.vrayNode || name !in VrayNodeAttrs)
    requires Attr(node, name) !in OptionAttributes(p.additional)
    ensures var r := VrayWrites(a, p, sep, f).attrs;
      var k := Attr(node, name);
      (k in r <==> k in a) && (k in a ==> r[k] == a[k])
  {
    var n := f.vrayNode;
    if !(f.vrayMenu.Some? && IndexOf(f.vrayMenu.value, sep).None?) {
      AttrDiffer(node, name, n, "fileNameRenderElementSeparator");
      AttrDiffer(node, name, n, "imageFormatStr");
      AttrDiffer(node, name, n, "animType");
      AttrDiffer(node, name, n, "width");
      AttrDiffer(node, name, n, "height");
      var a2 := a[Attr(n, "fileNameRenderElementSeparator") := VStr(sep)]
                 [Attr(n, "imageFormatStr") := VStr(p.imageFormat)]
                 [Attr(n, "animType") := VInt(1)]
                 [Attr(n, "width") := VInt(f.width)]
                 [Attr(n, "height") := VInt(f.height)];
      ApplyOptionsFrame(a2, p.additional, f.types, Attr(node, name));
    }
  }

  /**
   * V-Ray ends up with its configured prefix, the separator filled in,
   * whether or not the later steps complete, unless an additional option
   * names the prefix attribute.
   */
  lemma VrayFilledPrefix(a: Attrs, s: ProjectRenderSettings, f: SceneFacts)
    requires '.' !in f.vrayNode
    requires Attr(VraySettings, "fileNamePrefix") !in OptionAttributes(s.vray.additional)
    ensures var r := Defaults(a, s, "vray", f).attrs;
      var k := Attr(VraySettings, "fileNamePrefix");
      k in r && r[k] == VStr(FillSeparator(s.vray.imagePrefix, AovSeparator(s.aovSeparator)))
  {
    var sep := AovSeparator(s.aovSeparator);
    var k := Attr(VraySettings, "fileNamePrefix");
    var a1 := WritePrefixAsWritten(a, s, "vray", sep).attrs;
    assert a1 == a[k := VStr(FillSeparator(s.vray.imagePrefix, sep))];
    assert '.' !in VraySettings;
    VrayWritesFrame(a1, s.vray, sep, f, VraySettings, "fileNamePrefix");
  }

  /**
   * When V-Ray's settings complete, the separator menu (if any) offers the
   * separator and the render element separator attribute holds it.
   */
  lemma VraySeparatorSet(a: Attrs, s: ProjectRenderSettings, f: SceneFacts)
    requires '.' !in f.vrayNode
    requires Attr(f.vrayNode, "fileNameRenderElementSeparator") !in OptionAttributes(s.vray.additional)
    requires Defaults(a, s, "vray", f).ok
    ensures var sep := AovSeparator(s.aovSeparator);
      f.vrayMenu.Some? ==> sep in f.vrayMenu.value
    ensures var r := Defaults(a, s, "vray", f).attrs;
      var k := Attr(f.vrayNode, "fileNameRenderElementSeparator");
      k in r && r[k] == VStr(AovSeparator(s.aovSeparator))
  {
    var sep := AovSeparator(s.aovSeparator);
    var n := f.vrayNode;
    var k := Attr(n, "fileNameRenderElementSeparator");
    var a1 := WritePrefixAsWritten(a, s, "vray", sep).attrs;
    AttrDiffer(n, "fileNameRenderElementSeparator", n, "imageFormatStr");
    AttrDiffer(n, "fileNameRenderElementSeparator", n, "animType");
    AttrDiffer(n, "fileNameRenderElementSeparator", n, "width");
    AttrDiffer(n, "fileNameRenderElementSeparator", n, "height");
    var a2 := a1[k := VStr(sep)]
                [Attr(n, "imageFormatStr") := VStr(s.vray.imageFormat)]
                [Attr(n, "animType") := VInt(1)]
                [Attr(n, "width") := VInt(f.width)]
                [Attr(n, "height") := VInt(f.height)];
    ApplyOptionsFrame(a2, s.vray.additional, f.types, k);
  }

  /** The four attributes the global output settings write. */
  const GlobalOutputKeys := {Attr(RenderGlobals, "outFormatControl"), AnimationAttr,
                             Attr(RenderGlobals, "putFrameBeforeExt"), PaddingAttr}

  /** The attributes the Redshift settings write besides the global output and the options. */
  const RedshiftKeys := {GIEnabled, PrimaryGI, SecondaryGI, RedshiftImageFormatAttr, ResolutionWidth, ResolutionHeight}

  /** Redshift's settings keep every attribute they and the options do not name. */
  lemma RedshiftWritesFrame(a: Attrs, p: RedshiftPresets, f: SceneFacts, k: string)
    requires k !in GlobalOutputKeys && k !in RedshiftKeys && k !in OptionAttributes(p.additional)
    ensures var r := RedshiftWrites(a, p, f).attrs;
      (k in r <==> k in a) && (k in a ==> r[k] == a[k])
  {
    RedshiftGIFrame(a, p.primaryGIEngine, p.secondaryGIEngine, k);
    var gi := RedshiftGI(a, p.primaryGIEngine, p.secondaryGIEngine);
    if gi.ok && RedshiftImageFormat(p.imageFormat).Some? {
      var a2 := GlobalOutput(gi.attrs)[RedshiftImageFormatAttr := VInt(RedshiftImageFormat(p.imageFormat).value)]
                  [ResolutionWidth := VInt(f.width)][ResolutionHeight := VInt(f.height)];
      ApplyOptionsFrame(a2, p.additional, f.types, k);
    }
  }

  /** Redshift's settings, once the GI settings and the format are valid, leave frames padded to four digits. */
  lemma RedshiftWritesPadding(a: Attrs, p: RedshiftPresets, f: SceneFacts)
    requires ParseInt(p.primaryGIEngine).Some? && ParseInt(p.secondaryGIEngine).Some?
    requires RedshiftImageFormat(p.imageFormat).Some?
    requires PaddingAttr !in OptionAttributes(p.additional)
    ensures var r := RedshiftWrites(a, p, f).attrs;
      PaddingAttr in r && r[PaddingAttr] == VInt(4)
  {
    RedshiftGIFinal(a, p.primaryGIEngine, p.secondaryGIEngine);
    var gi := RedshiftGI(a, p.primaryGIEngine, p.secondaryGIEngine);
    PaddingNotWritten();
    var a2 := GlobalOutput(gi.attrs)[RedshiftImageFormatAttr := VInt(RedshiftImageFormat(p.imageFormat).value)]
                [ResolutionWidth := VInt(f.width)][ResolutionHeight := VInt(f.height)];
    ApplyOptionsFrame(a2, p.additional, f.types, PaddingAttr);
  }

  lemma PaddingNotWritten()
    ensures PaddingAttr !in {RedshiftImageFormatAttr, ResolutionWidth, ResolutionHeight, Attr("rmanGlobals", "imageOutputDir")}
    ensures PaddingAttr !in {ImageFilePrefix, Attr("defaultArnoldDriver", "ai_translator"),
                             Attr("defaultArnoldDriver", "exrTiled"), Attr("defaultArnoldDriver", "mergeAOVs")}
  {
    assert '.' !in RenderGlobals && '.' !in "defaultResolution" && '.' !in RedshiftOptions;
    assert '.' !in "rmanGlobals" && '.' !in "defaultArnoldDriver";
    AttrDiffer(RenderGlobals, "extensionPadding", RedshiftOptions, "imageFormat");
    AttrDiffer(RenderGlobals, "extensionPadding", "defaultResolution", "width");
    AttrDiffer(RenderGlobals, "extensionPadding", "defaultResolution", "height");
    AttrDiffer(RenderGlobals, "extensionPadding", "rmanGlobals", "imageOutputDir");
    AttrDiffer(RenderGlobals, "extensionPadding", RenderGlobals, "imageFilePrefix");
    AttrDiffer(RenderGlobals, "extensionPadding", "defaultArnoldDriver", "ai_translator");
    AttrDiffer(RenderGlobals, "extensionPadding", "defaultArnoldDriver", "exrTiled");
    AttrDiffer(RenderGlobals, "extensionPadding", "defaultArnoldDriver", "mergeAOVs");
  }

  lemma PrefixNotWritten()
    ensures ImageFilePrefix !in GlobalOutputKeys && ImageFilePrefix !in RedshiftKeys
  {
    assert '.' !in RenderGlobals && '.' !in "defaultResolution" && '.' !in RedshiftOptions;
    AttrDiffer(RenderGlobals, "imageFilePrefix", RenderGlobals, "outFormatControl");
    AttrDiffer(RenderGlobals, "imageFilePrefix", RenderGlobals, "animation");
    AttrDiffer(RenderGlobals, "imageFilePrefix", RenderGlobals, "putFrameBeforeExt");
    AttrDiffer(RenderGlobals, "imageFilePrefix", RenderGlobals, "extensionPadding");
    AttrDiffer(RenderGlobals, "imageFilePrefix", RedshiftOptions, "GIEnabled");
    AttrDiffer(RenderGlobals, "imageFilePrefix", RedshiftOptions, "primaryGIEngine");
    AttrDiffer(RenderGlobals, "imageFilePrefix", RedshiftOptions, "secondaryGIEngine");
    AttrDiffer(RenderGlobals, "imageFilePrefix", RedshiftOptions, "imageFormat");
    AttrDiffer(RenderGlobals, "imageFilePrefix", "defaultResolution", "width");
    AttrDiffer(RenderGlobals, "imageFilePrefix", "defaultResolution", "height");
  }

  /**
   * Redshift ends up with its configured prefix, the separator filled in,
   * wherever its settings stop, unless an additional option names the
   * prefix attribute.
   */
  lemma RedshiftFilledPrefix(a: Attrs, s: ProjectRenderSettings, f: SceneFacts)
    requires ImageFilePrefix !in OptionAttributes(s.redshift.additional)
    ensures var r := Defaults(a, s, "redshift", f).attrs;
      ImageFilePrefix in r
      && r[ImageFilePrefix] == VStr(FillSeparator(s.redshift.imagePrefix, AovSeparator(s.aovSeparator)))
  {
    var sep := AovSeparator(s.aovSeparator);
    var a1 := WritePrefixAsWritten(a, s, "redshift", sep).attrs;
    assert a1 == a[ImageFilePrefix := VStr(FillSeparator(s.redshift.imagePrefix, sep))];
    PrefixNotWritten();
    RedshiftWritesFrame(a1, s.redshift, f, ImageFilePrefix);
  }

  /**
   * RenderMan ends up with its configured prefix, the separator filled in,
   * unless an additional option names the prefix attribute.
   */
  lemma RendermanFilledPrefix(a: Attrs, s: ProjectRenderSettings, f: SceneFacts)
    requires DotFree(f.displayFilterNodes) && DotFree(f.sampleFilterNodes)
    requires Attr("rmanGlobals", "imageFileFormat") !in OptionAttributes(s.renderman.additional)
    ensures var r := Defaults(a, s, "renderman", f).attrs;
      var k := Attr("rmanGlobals", "imageFileFormat");
      k in r && r[k] == VStr(FillSeparator(s.renderman.imagePrefix, AovSeparator(s.aovSeparator)))
  {
    var sep := AovSeparator(s.aovSeparator);
    var k := Attr("rmanGlobals", "imageFileFormat");
    var a1 := WritePrefixAsWritten(a, s, "renderman", sep).attrs;
    assert a1 == a[k := VStr(FillSeparator(s.renderman.imagePrefix, sep))];
    RendermanKeepsFormat(a1, s.renderman, sep, f);
  }

  /** The RenderMan writes leave the image file format as they find it, unless an additional option names it. */
  lemma RendermanKeepsFormat(a1: Attrs, p: RendermanPresets, sep: string, f: SceneFacts)
    requires DotFree(f.displayFilterNodes) && DotFree(f.sampleFilterNodes)
    requires Attr("rmanGlobals", "imageFileFormat") !in OptionAttributes(p.additional)
    requires Attr("rmanGlobals", "imageFileFormat") in a1
    ensures var k := Attr("rmanGlobals", "imageFileFormat"); var r := RendermanWrites(a1, p, sep, f).attrs;
      k in r && r[k] == a1[k]
  {
    var k := Attr("rmanGlobals", "imageFileFormat");
    assert '.' !in "rmanGlobals" && '.' !in "defaultResolution" && "rmanGlobals" != RenderGlobals;
    AttrDiffer("rmanGlobals", "imageFileFormat", "rmanGlobals", "imageOutputDir");
    AttrDiffer("rmanGlobals", "imageFileFormat", "defaultResolution", "width");
    AttrDiffer("rmanGlobals", "imageFileFormat", "defaultResolution", "height");
    var b0 := a1[Attr("rmanGlobals", "imageOutputDir") := VStr(p.imageDir)];
    var b1 := FilterFileWrites(b0, DisplayFilter, f.displayFilterNodes, p, sep);
    var b := FilterFileWrites(b1, SampleFilter, f.sampleFilterNodes, p, sep);
    FilterFileWritesFrame(b0, DisplayFilter, f.displayFilterNodes, p, sep, "rmanGlobals", "imageFileFormat");
    FilterFileWritesFrame(b1, SampleFilter, f.sampleFilterNodes, p, sep, "rmanGlobals", "imageFileFormat");
    GlobalOutputFrame(b, "rmanGlobals", "imageFileFormat");
    var a2 := GlobalOutput(b)[ResolutionWidth := VInt(f.width)][ResolutionHeight := VInt(f.height)];
    ApplyOptionsFrame(a2, p.additional, f.types, k);
  }

  /** Arnold's settings leave frames padded to four digits. */
  lemma ArnoldWritesPadding(a: Attrs, p: ArnoldPresets, f: SceneFacts)
    requires RenderableSaved(a, f.cameras)
    requires PaddingAttr !in OptionAttributes(p.additional)
    ensures var r := ArnoldWrites(a, p, f).attrs;
      PaddingAttr in r && r[PaddingAttr] == VInt(4)
  {
    PaddingNotWritten();
    RangeAttrsDiffer();
    var g := GlobalOutput(Reverted(a, f)[ResolutionWidth := VInt(f.width)][ResolutionHeight := VInt(f.height)]);
    var a2 := g[ImageFilePrefix := VStr(p.imagePrefix)]
               [Attr("defaultArnoldDriver", "ai_translator") := VStr(p.imageFormat)]
               [Attr("defaultArnoldDriver", "exrTiled") := VBool(p.tiled)]
               [Attr("defaultArnoldDriver", "mergeAOVs") := VBool(p.multilayerExr)];
    ApplyOptionsFrame(a2, p.additional, f.types, PaddingAttr);
  }

  /** RenderMan's settings leave frames padded to four digits. */
  lemma RendermanWritesPadding(a: Attrs, p: RendermanPresets, sep: string, f: SceneFacts)
    requires PaddingAttr !in OptionAttributes(p.additional)
    ensures var r := RendermanWrites(a, p, sep, f).attrs;
      PaddingAttr in r && r[PaddingAttr] == VInt(4)
  {
    PaddingNotWritten();
    var b0 := a[Attr("rmanGlobals", "imageOutputDir") := VStr(p.imageDir)];
    var b := FilterFileWrites(FilterFileWrites(b0, DisplayFilter, f.displayFilterNodes, p, sep),
                              SampleFilter, f.sampleFilterNodes, p, sep);
    var a2 := GlobalOutput(b)[ResolutionWidth := VInt(f.width)][ResolutionHeight := VInt(f.height)];
    ApplyOptionsFrame(a2, p.additional, f.types, PaddingAttr);
  }

  /**
   * Arnold, Redshift (once its GI settings and format are valid) and
   * RenderMan render with four-digit frame padding, unless an additional
   * option overrides the padding attribute.
   */
  lemma DefaultsPadding(a: Attrs, s: ProjectRenderSettings, renderer: string, f: SceneFacts)
    requires renderer == "arnold" || renderer == "redshift" || renderer == "renderman"
    requires renderer == "arnold" ==> RenderableSaved(a, f.cameras)
    requires renderer == "redshift" ==>
      ParseInt(s.redshift.primaryGIEngine).Some? && ParseInt(s.redshift.secondaryGIEngine).Some?
      && RedshiftImageFormat(s.redshift.imageFormat).Some?
    requires PaddingAttr !in OptionAttributes(
      if renderer == "arnold" then s.arnold.additional
      else if renderer == "redshift" then s.redshift.additional
      else s.renderman.additional)
    ensures var r := Defaults(a, s, renderer, f).attrs;
      PaddingAttr in r && r[PaddingAttr] == VInt(4)
  {
    var a1 := WritePrefixAsWritten(a, s, renderer, AovSeparator(s.aovSeparator)).attrs;
    if renderer == "arnold" {
      assert RenderableSaved(a1, f.cameras);
      ArnoldWritesPadding(a1, s.arnold, f);
    } else if renderer == "redshift" {
      RedshiftWritesPadding(a1, s.redshift, f);
    } else {
      RendermanWritesPadding(a1, s.renderman, AovSeparator(s.aovSeparator), f);
    }
  }
}

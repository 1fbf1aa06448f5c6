/**
 * The Multiverse USD extractor's option handling: the declared options and
 * their defaults (and the animation variant's), the typed override from
 * instance data, the file format choice, the time options and the write
 * options handed to Multiverse.  Multiverse itself and the scene's frame
 * rate are outside the model.
 */
module ExtractMultiverseUsd {
  import opened Strs
  import opened PyData
  import ExtractMayaUsd

  type OptionType = ExtractMayaUsd.OptionType

  /** The overridable options; each has a single declared type. */
  const OptionTypes: map<string, OptionType> := map[
    "stripNamespaces" := ExtractMayaUsd.Single(ExtractMayaUsd.TBool),
    "mergeTransformAndShape" := ExtractMayaUsd.Single(ExtractMayaUsd.TBool),
    "writeAncestors" := ExtractMayaUsd.Single(ExtractMayaUsd.TBool),
    "flattenParentXforms" := ExtractMayaUsd.Single(ExtractMayaUsd.TBool),
    "writeSparseOverrides" := ExtractMayaUsd.Single(ExtractMayaUsd.TBool),
    "useMetaPrimPath" := ExtractMayaUsd.Single(ExtractMayaUsd.TBool),
    "customRootPath" := ExtractMayaUsd.Single(ExtractMayaUsd.TStr),
    "customAttributes" := ExtractMayaUsd.Single(ExtractMayaUsd.TStr),
    "nodeTypesToIgnore" := ExtractMayaUsd.Single(ExtractMayaUsd.TStr),
    "writeMeshes" := ExtractMayaUsd.Single(ExtractMayaUsd.TBool),
    "writeCurves" := ExtractMayaUsd.Single(ExtractMayaUsd.TBool),
    "writeParticles" := ExtractMayaUsd.Single(ExtractMayaUsd.TBool),
    "writeCameras" := ExtractMayaUsd.Single(ExtractMayaUsd.TBool),
    "writeLights" := ExtractMayaUsd.Single(ExtractMayaUsd.TBool),
    "writeJoints" := ExtractMayaUsd.Single(ExtractMayaUsd.TBool),
    "writeCollections" := ExtractMayaUsd.Single(ExtractMayaUsd.TBool),
    "writePositions" := ExtractMayaUsd.Single(ExtractMayaUsd.TBool),
    "writeNormals" := ExtractMayaUsd.Single(ExtractMayaUsd.TBool),
    "writeUVs" := ExtractMayaUsd.Single(ExtractMayaUsd.TBool),
    "writeColorSets" := ExtractMayaUsd.Single(ExtractMayaUsd.TBool),
    "writeTangents" := ExtractMayaUsd.Single(ExtractMayaUsd.TBool),
    "writeRefPositions" := ExtractMayaUsd.Single(ExtractMayaUsd.TBool),
    "writeBlendShapes" := ExtractMayaUsd.Single(ExtractMayaUsd.TBool),
    "writeDisplayColor" := ExtractMayaUsd.Single(ExtractMayaUsd.TBool),
    "writeSkinWeights" := ExtractMayaUsd.Single(ExtractMayaUsd.TBool),
    "writeMaterialAssignment" := ExtractMayaUsd.Single(ExtractMayaUsd.TBool),
    "writeHardwareShader" := ExtractMayaUsd.Single(ExtractMayaUsd.TBool),
    "writeShadingNetworks" := ExtractMayaUsd.Single(ExtractMayaUsd.TBool),
    "writeTransformMatrix" := ExtractMayaUsd.Single(ExtractMayaUsd.TBool),
    "writeUsdAttributes" := ExtractMayaUsd.Single(ExtractMayaUsd.TBool),
    "writeInstancesAsReferences" := ExtractMayaUsd.Single(ExtractMayaUsd.TBool),
    "timeVaryingTopology" := ExtractMayaUsd.Single(ExtractMayaUsd.TBool),
    "customMaterialNamespace" := ExtractMayaUsd.Single(ExtractMayaUsd.TStr),
    "numTimeSamples" := ExtractMayaUsd.Single(ExtractMayaUsd.TInt),
    "timeSamplesSpan" := ExtractMayaUsd.Single(ExtractMayaUsd.TFloat)]

  /** The default options. */
  const DefaultOptions: map<string, Value> := map[
    "stripNamespaces" := VBool(false),
    "mergeTransformAndShape" := VBool(false),
    "writeAncestors" := VBool(false),
    "flattenParentXforms" := VBool(false),
    "writeSparseOverrides" := VBool(false),
    "useMetaPrimPath" := VBool(false),
    "customRootPath" := VStr(""),
    "customAttributes" := VStr(""),
    "nodeTypesToIgnore" := VStr(""),
    "writeMeshes" := VBool(true),
    "writeCurves" := VBool(true),
    "writeParticles" := VBool(true),
    "writeCameras" := VBool(false),
    "writeLights" := VBool(false),
    "writeJoints" := VBool(false),
    "writeCollections" := VBool(false),
    "writePositions" := VBool(true),
    "writeNormals" := VBool(true),
    "writeUVs" := VBool(true),
    "writeColorSets" := VBool(false),
    "writeTangents" := VBool(false),
    "writeRefPositions" := VBool(false),
    "writeBlendShapes" := VBool(false),
    "writeDisplayColor" := VBool(false),
    "writeSkinWeights" := VBool(false),
    "writeMaterialAssignment" := VBool(false),
    "writeHardwareShader" := VBool(false),
    "writeShadingNetworks" := VBool(false),
    "writeTransformMatrix" := VBool(true),
    "writeUsdAttributes" := VBool(false),
    "writeInstancesAsReferences" := VBool(false),
    "timeVaryingTopology" := VBool(false),
    "customMaterialNamespace" := VStr(""),
    "numTimeSamples" := VInt(1),
    "timeSamplesSpan" := VFloat("0.0")]

  /** Every declared option has a default and every default is declared. */
  lemma DefaultsDeclared()
    ensures DefaultOptions.Keys == OptionTypes.Keys
  { }

  /** No declaration is a `(type, None)` tuple. */
  lemma TypesSingle()
    ensures forall k :: k in OptionTypes ==> OptionTypes[k].Single?
  { }

  /** Every default has its option's declared type. */
  lemma DefaultsTyped()
    ensures forall k :: k in DefaultOptions && k in OptionTypes ==>
      ExtractMayaUsd.HasType(DefaultOptions[k], OptionTypes[k].t)
  { }

  /** The animation variant's defaults: sparse overrides, USD attributes and namespace stripping switched on. */
  function AnimDefaults(): map<string, Value> {
    DefaultOptions["writeSparseOverrides" := VBool(true)]["writeUsdAttributes" := VBool(true)]["stripNamespaces" := VBool(true)]
  }

  /** The animation defaults differ from the base defaults in exactly the three switched options. */
  lemma AnimDefaultsDiffer(k: string)
    ensures AnimDefaults().Keys == DefaultOptions.Keys
    ensures k in {"writeSparseOverrides", "writeUsdAttributes", "stripNamespaces"} ==>
      k in DefaultOptions && DefaultOptions[k] == VBool(false) && AnimDefaults()[k] == VBool(true)
    ensures k in DefaultOptions && k !in {"writeSparseOverrides", "writeUsdAttributes", "stripNamespaces"} ==>
      AnimDefaults()[k] == DefaultOptions[k]
  {
    assert "writeSparseOverrides" in DefaultOptions && DefaultOptions["writeSparseOverrides"] == VBool(false);
    assert "writeUsdAttributes" in DefaultOptions && DefaultOptions["writeUsdAttributes"] == VBool(false);
    assert "stripNamespaces" in DefaultOptions && DefaultOptions["stripNamespaces"] == VBool(false);
  }

  // ---------------------------------------------------------------------
  // parse_overrides

  /** No declaration is a `(type, None)` tuple, so the type test never raises. */
  predicate AllSingle(types: map<string, OptionType>) {
    forall k :: k in types ==> types[k].Single?
  }

  /**
   * `parse_overrides`: every instance data key that is a declared option
   * and has its type replaces the option; nothing is removed, None values
   * included.
   */
  method ParseOverrides(types: map<string, OptionType>, data: map<string, Value>, order: seq<string>,
                        options: map<string, Value>)
    returns (r: map<string, Value>)
    requires AllSingle(types)
    requires forall k :: k in data <==> k in order
    ensures r == ExtractMayaUsd.Overridden(types, data, options, false)
  {
    var copied := ExtractMayaUsd.CopyOverrides(types, data, order, options, false);
    NeverRaises(types, data);
    r := copied.value;
  }

  lemma NeverRaises(types: map<string, OptionType>, data: map<string, Value>)
    requires AllSingle(types)
    ensures !ExtractMayaUsd.Raises(types, data, false)
  { }

  /** A kept option is an override of its declared type or the option's own value; no key is dropped. */
  lemma OverridesTyped(types: map<string, OptionType>, data: map<string, Value>, options: map<string, Value>, k: string)
    requires AllSingle(types)
    ensures var r := ExtractMayaUsd.Overridden(types, data, options, false);
      && (k in options ==> k in r)
      && (k in r ==>
            (k in types && k in data && r[k] == data[k] && ExtractMayaUsd.HasType(data[k], types[k].t))
            || (k in options && r[k] == options[k]
                && !(k in types && k in data && ExtractMayaUsd.HasType(data[k], types[k].t))))
  { }

  /** Unlike the Maya USD extractor, None-valued options stay. */
  lemma NoneKept(types: map<string, OptionType>, data: map<string, Value>, options: map<string, Value>, k: string)
    requires AllSingle(types)
    requires k in options && options[k] == VNone && k !in data
    ensures var r := ExtractMayaUsd.Overridden(types, data, options, false); k in r && r[k] == VNone
  { }

  // ---------------------------------------------------------------------
  // The file format

  const FileFormats: seq<string> := ["usd", "usda", "usdz"]

  /**
   * `file_format in range(3)` and the index it stands for: an int in the
   * range, or a bool as 0 or 1.  A float equal to 0, 1 or 2 is in the range
   * too (`1.0 in range(3)`), but indexing the list with it raises TypeError.
   */
  function FormatIndex(fileFormat: Value): Result<Option<nat>> {
    match fileFormat
    case VInt(i) => Ok(if 0 <= i < |FileFormats| then Some(i) else None)
    case VBool(b) => Ok(Some(if b then 1 else 0))
    case VFloat(t) =>
      if FloatIsInt(t, 0) || FloatIsInt(t, 1) || FloatIsInt(t, 2) then Err("TypeError: list indices must be integers or slices, not float")
      else Ok(None)
    case _ => Ok(None)
  }

  /**
   * The extractor's scene type, which `process` overwrites when the
   * instance's `fileFormat` is a valid index and otherwise leaves as the
   * previous instance left it.
   */
  class MultiverseExtractor {
    var sceneType: string

    constructor()
      ensures sceneType == "usd"
    {
      sceneType := "usd";
    }

    /** The scene type for an instance, and the extension of its file; a float index raises. */
    method SelectSceneType(data: map<string, Value>) returns (r: Result<string>)
      modifies this
      ensures var idx := FormatIndex(if "fileFormat" in data then data["fileFormat"] else VInt(0));
        sceneType == (if idx.Ok? && idx.value.Some? then FileFormats[idx.value.value] else old(sceneType))
        && (r.Err? <==> idx.Err?)
        && (r.Ok? ==> r.value == sceneType)
    {
      var idx := FormatIndex(if "fileFormat" in data then data["fileFormat"] else VInt(0));
      if idx.Err? {
        return Err(idx.error);
      }
      if idx.value.Some? {
        sceneType := FileFormats[idx.value.value];
      }
      r := Ok(sceneType);
    }
  }

  /**
   * Without `fileFormat` the index is 0, USD; the three valid indices give
   * the three formats; a float index in the range raises.
   */
  lemma FormatChoices(i: int)
    ensures FormatIndex(VInt(0)) == Ok(Some(0)) && FileFormats[0] == "usd"
    ensures FormatIndex(VInt(i)).Ok? && (FormatIndex(VInt(i)).value.Some? <==> 0 <= i <= 2)
    ensures 0 <= i <= 2 ==> FileFormats[FormatIndex(VInt(i)).value.value] == ["usd", "usda", "usdz"][i]
    ensures 0 <= i <= 2 ==> FormatIndex(VFloat(IntToStr(i) + ".0")).Err?
  { }

  // ---------------------------------------------------------------------
  // Time options

  /** The frame data `process` reads; integer frames. */
  datatype Frames = Frames(frameStart: int, frameEnd: int, handleStart: int, handleEnd: int)

  datatype TimeOptions = TimeOptions(
    frameRange: (int, int), frameIncrement: Value, numTimeSamples: Value, timeSamplesSpan: Value, framePerSecond: Value)

  /**
   * The time options: none for a single frame; otherwise the range widened
   * by the handles, the step, and the sample settings and frame rate from
   * the instance or, failing that, the options and the scene.
   */
  function TimeOpts(frames: Frames, data: map<string, Value>, options: map<string, Value>, sceneFps: Value)
    : (r: Result<Option<TimeOptions>>)
    ensures r.Ok? && r.value.Some? ==>
      frames.frameEnd != frames.frameStart
      && r.value.value.frameRange == (frames.frameStart - frames.handleStart, frames.frameEnd + frames.handleEnd)
    ensures frames.frameEnd == frames.frameStart ==> r == Ok(None)
  {
    if frames.frameEnd == frames.frameStart then Ok(None)
    else if "step" !in data then Err("KeyError: 'step'")
    // `.get(key, options[key])` evaluates its default first, so a key missing
    // from the options raises even when the instance has its own value.
    else if "numTimeSamples" !in options then Err("KeyError: 'numTimeSamples'")
    else if "timeSamplesSpan" !in options then Err("KeyError: 'timeSamplesSpan'")
    else
      Ok(Some(TimeOptions(
        (frames.frameStart - frames.handleStart, frames.frameEnd + frames.handleEnd),
        data["step"],
        if "numTimeSamples" in data then data["numTimeSamples"] else options["numTimeSamples"],
        if "timeSamplesSpan" in data then data["timeSamplesSpan"] else options["timeSamplesSpan"],
        if "fps" in data then data["fps"] else sceneFps)))
  }

  /** A multi-frame range with non-negative handles covers at least the frames between start and end. */
  lemma TimeRangeCovers(frames: Frames, data: map<string, Value>, options: map<string, Value>, sceneFps: Value)
    requires frames.handleStart >= 0 && frames.handleEnd >= 0
    requires TimeOpts(frames, data, options, sceneFps).Ok? && TimeOpts(frames, data, options, sceneFps).value.Some?
    ensures var (lo, hi) := TimeOpts(frames, data, options, sceneFps).value.value.frameRange;
      lo <= frames.frameStart && frames.frameEnd <= hi
  { }

  // ---------------------------------------------------------------------
  // The write options

  const DiscardKeys: set<string> :=
    {"numTimeSamples", "timeSamplesSpan", "frameStart", "frameEnd", "handleStart", "handleEnd", "step", "fps"}

  /** Sets every option on the write options object except the discarded time keys. */
  method WriteOptions(options: map<string, Value>, order: seq<string>) returns (written: map<string, Value>)
    requires forall k :: k in options <==> k in order
    ensures forall k :: k in written <==> k in options && k !in DiscardKeys
    ensures forall k :: k in written ==> written[k] == options[k]
  {
    written := map[];
    for i := 0 to |order|
      invariant forall k :: k in written <==> k in order[..i] && k !in DiscardKeys
      invariant forall k :: k in written ==> written[k] == options[k]
    {
      assert order[..i + 1] == order[..i] + [order[i]];
      if order[i] !in DiscardKeys {
        written := written[order[i] := options[order[i]]];
      }
    }
    assert order[..|order|] == order;
  }

  /** The default sample settings never reach the write options; every other default does. */
  lemma DefaultsWritten(written: map<string, Value>)
    requires forall k :: k in written <==> k in DefaultOptions && k !in DiscardKeys
    ensures "numTimeSamples" !in written && "timeSamplesSpan" !in written
    ensures "writeMeshes" in written
  {
    assert "writeMeshes" in DefaultOptions;
  }

  // ---------------------------------------------------------------------
  // ExtractMultiverseUsdAnim.filter_members

  /** The first member whose name ends in `out_SET`. */
  function FirstOutSet(members: seq<string>): (r: Option<nat>)
    ensures r.Some? ==>
      && r.value < |members| && EndsWith(members[r.value], "out_SET")
      && forall j :: 0 <= j < r.value ==> !EndsWith(members[j], "out_SET")
    ensures r.None? ==> forall j :: 0 <= j < |members| ==> !EndsWith(members[j], "out_SET")
    decreases |members|
  {
    if |members| == 0 then None
    else if EndsWith(members[0], "out_SET") then Some(0)
    else match FirstOutSet(members[1..])
      case None => None
      case Some(i) => Some(i + 1)
  }

  /** The animation variant exports the members of the first `out_SET`, or nothing when there is none. */
  function AnimMembers(members: seq<string>, setMembers: string -> seq<string>): (r: Option<seq<string>>)
    ensures r.None? <==> forall j :: 0 <= j < |members| ==> !EndsWith(members[j], "out_SET")
    ensures r.Some? ==> exists j :: 0 <= j < |members| && EndsWith(members[j], "out_SET") && r.value == setMembers(members[j])
  {
    match FirstOutSet(members)
    case None => None
    case Some(i) => Some(setMembers(members[i]))
  }
}

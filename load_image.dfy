/**
 * The image loader's file node settings: UDIM tiling follows the
 * representation context, and the frame extension is used only for a
 * frame sequence whose range, read from the representation before the
 * version, has distinct ends.
 */
module LoadImage {
  import opened Strs
  import opened PyData

  /** A representation or version entity: its `attrib` and its `data`. */
  datatype Entity = Entity(attrib: map<string, Value>, data: map<string, Value>)

  /** `d.get(key)`: None (VNone) when missing. */
  function GetValue(d: map<string, Value>, key: string): Value {
    if key in d then d[key] else VNone
  }

  /** `data.get(handleKey, attrib.get(key))`: the handle-inclusive frame wins when present. */
  function Frame(e: Entity, handleKey: string, key: string): (r: Value)
    ensures handleKey in e.data ==> r == e.data[handleKey]
    ensures handleKey !in e.data ==> r == GetValue(e.attrib, key)
  {
    if handleKey in e.data then e.data[handleKey] else GetValue(e.attrib, key)
  }

  function Start(e: Entity): Value { Frame(e, "frameStartHandle", "frameStart") }
  function End(e: Entity): Value { Frame(e, "frameEndHandle", "frameEnd") }

  predicate Complete(e: Entity) { Start(e) != VNone && End(e) != VNone }

  /** The first entity with both a start and an end decides: a sequence when they differ (by Python's `!=`). */
  function Decides(entities: seq<Entity>): (r: bool)
    ensures r ==> exists i :: 0 <= i < |entities| && Complete(entities[i]) && !PyEq(Start(entities[i]), End(entities[i]))
    ensures (forall i :: 0 <= i < |entities| ==> !Complete(entities[i])) ==> !r
  {
    if |entities| == 0 then false
    else if Complete(entities[0]) then !PyEq(Start(entities[0]), End(entities[0]))
    else
      var r := Decides(entities[1..]);
      assert forall i :: 0 <= i < |entities| - 1 ==> entities[1..][i] == entities[i + 1];
      r
  }

  /** `_is_sequence`: the representation is consulted first, then the version. */
  method IsSequence(representation: Entity, version: Entity) returns (r: bool)
    ensures r == Decides([representation, version])
  {
    var entities := [representation, version];
    var i := 0;
    while i < |entities|
      invariant 0 <= i <= |entities|
      invariant Decides(entities) == Decides(entities[i..])
    {
      var e := entities[i];
      var start := Frame(e, "frameStartHandle", "frameStart");
      var end := Frame(e, "frameEndHandle", "frameEnd");
      if start == VNone || end == VNone {
        i := i + 1;
        continue;
      }
      return !PyEq(start, end);
    }
    return false;
  }

  /** A complete representation decides regardless of the version. */
  lemma RepresentationFirst(representation: Entity, version: Entity)
    requires Complete(representation)
    ensures Decides([representation, version]) == !PyEq(Start(representation), End(representation))
  { }

  /** An incomplete representation defers to the version. */
  lemma VersionFallback(representation: Entity, version: Entity)
    requires !Complete(representation)
    ensures Decides([representation, version]) == (Complete(version) && !PyEq(Start(version), End(version)))
  {
    assert [representation, version][1..] == [version];
    assert [version][1..] == [];
  }

  /** With no complete entity there is no sequence. */
  lemma NoRangeNoSequence(representation: Entity, version: Entity)
    requires !Complete(representation) && !Complete(version)
    ensures !Decides([representation, version])
  { }

  /** The file node attributes `_apply_representation_context` sets from the context. */
  datatype FileNodeSettings = FileNodeSettings(uvTilingMode: int, useFrameExtension: bool)

  /** `_apply_representation_context`, for the tiling mode and the frame extension. */
  method ApplyRepresentationContext(repreContext: map<string, Value>, representation: Entity, version: Entity)
    returns (s: FileNodeSettings)
    ensures s.uvTilingMode == (if GetValue(repreContext, "udim") != VNone then 3 else 0)
    ensures s.useFrameExtension <==> GetValue(repreContext, "frame") != VNone && Decides([representation, version])
  {
    var hasFrames := GetValue(repreContext, "frame") != VNone;
    var hasUdim := GetValue(repreContext, "udim") != VNone;
    var tiling := if hasUdim then 3 else 0;
    var useFrames := false;
    if hasFrames {
      useFrames := IsSequence(representation, version);
    }
    return FileNodeSettings(tiling, useFrames);
  }
}

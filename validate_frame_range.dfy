/**
 * The frame range validator: the instance's frame range, handles and
 * handle-inclusive bounds are compared with the folder's, one error per
 * mismatch; the repair writes the folder's values onto the instance node
 * or into the render layer.
 */
module ValidateFrameRange {
  import opened Strs
  import opened PyData

  /** The six frame values, read from the context or from an instance. */
  datatype Range = Range(
    frameStartHandle: int, frameEndHandle: int,
    handleStart: int, handleEnd: int,
    frameStart: int, frameEnd: int)

  /** All six keys are present. */
  predicate HasRange(data: map<string, int>) {
    "frameStartHandle" in data && "frameEndHandle" in data && "handleStart" in data
    && "handleEnd" in data && "frameStart" in data && "frameEnd" in data
  }

  /** `int(data.get(key))` for the six keys; a missing one is `int(None)`, a TypeError. */
  function ReadRange(data: map<string, int>): (r: Result<Range>)
    ensures r.Ok? <==> HasRange(data)
    ensures r.Ok? ==> r.value.frameStartHandle == data["frameStartHandle"] && r.value.frameEndHandle == data["frameEndHandle"]
                      && r.value.handleStart == data["handleStart"] && r.value.handleEnd == data["handleEnd"]
                      && r.value.frameStart == data["frameStart"] && r.value.frameEnd == data["frameEnd"]
  {
    if HasRange(data) then
      Ok(Range(data["frameStartHandle"], data["frameEndHandle"], data["handleStart"], data["handleEnd"],
               data["frameStart"], data["frameEnd"]))
    else Err("TypeError: int() argument must not be None")
  }

  /** Which value of the instance disagrees with the folder. */
  datatype Mismatch = StartHandle | EndHandle | FrameStart | FrameEnd | HandleStart | HandleEnd

  /** The errors in the order they are recorded: the two bounds, then the four fields. */
  function Mismatches(folder: Range, inst: Range): seq<Mismatch> {
    (if inst.frameStartHandle != folder.frameStartHandle then [StartHandle] else [])
    + (if inst.frameEndHandle != folder.frameEndHandle then [EndHandle] else [])
    + Failing(FieldChecks(folder, inst))
  }

  /** The `checks` dict: each label with the folder's and the instance's value. */
  function FieldChecks(folder: Range, inst: Range): seq<(Mismatch, int, int)> {
    [(FrameStart, folder.frameStart, inst.frameStart), (FrameEnd, folder.frameEnd, inst.frameEnd),
     (HandleStart, folder.handleStart, inst.handleStart), (HandleEnd, folder.handleEnd, inst.handleEnd)]
  }

  /** How `process` ends. */
  datatype Outcome =
    | Skipped                         // tile rendering, or an excluded product type
    | AssertionFailed                 // the folder's start is after its end
    | Passed
    | Raised(errors: seq<Mismatch>)   // PublishValidationError listing every error

  /** Excluded when the product type is a substring of some configured entry. */
  predicate Excluded(productType: string, excludes: seq<string>) {
    exists i :: 0 <= i < |excludes| && Contains(excludes[i], productType)
  }

  /** `process`, after the active check. */
  method Process(tileRendering: bool, folder: Range, inst: Range, productType: string, excludes: seq<string>)
    returns (outcome: Outcome)
    ensures tileRendering ==> outcome == Skipped
    ensures !tileRendering && folder.frameStartHandle > folder.frameEndHandle ==> outcome == AssertionFailed
    ensures !tileRendering && folder.frameStartHandle <= folder.frameEndHandle ==>
      outcome == (if Excluded(productType, excludes) then Skipped
                  else if |Mismatches(folder, inst)| == 0 then Passed
                  else Raised(Mismatches(folder, inst)))
  {
    if tileRendering {
      return Skipped;
    }
    if folder.frameStartHandle > folder.frameEndHandle {
      return AssertionFailed;
    }
    var errors: seq<Mismatch> := [];
    var excluded := false;
    for i := 0 to |excludes|
      invariant excluded <==> exists j :: 0 <= j < i && Contains(excludes[j], productType)
    {
      if Contains(excludes[i], productType) {
        excluded := true;
      }
    }
    if excluded {
      return Skipped;
    }
    if inst.frameStartHandle != folder.frameStartHandle {
      errors := errors + [StartHandle];
    }
    if inst.frameEndHandle != folder.frameEndHandle {
      errors := errors + [EndHandle];
    }
    var checks := FieldChecks(folder, inst);
    var head := errors;
    for i := 0 to 4
      invariant errors == head + Failing(checks[..i])
    {
      assert checks[..i + 1][..i] == checks[..i];
      if checks[i].1 != checks[i].2 {
        errors := errors + [checks[i].0];
      }
    }
    assert checks[..4] == checks;
    if |errors| > 0 {
      return Raised(errors);
    }
    return Passed;
  }

  /** The labels of the checks whose folder and instance values differ. */
  function Failing(checks: seq<(Mismatch, int, int)>): seq<Mismatch> {
    if |checks| == 0 then []
    else Failing(checks[..|checks| - 1])
         + (if checks[|checks| - 1].1 != checks[|checks| - 1].2 then [checks[|checks| - 1].0] else [])
  }

  /** A label is among the failing ones exactly when some check with that label has differing values. */
  lemma {:induction false} FailingHas(checks: seq<(Mismatch, int, int)>, m: Mismatch)
    ensures m in Failing(checks) <==> exists i :: 0 <= i < |checks| && checks[i].0 == m && checks[i].1 != checks[i].2
  {
    if |checks| > 0 {
      FailingHas(checks[..|checks| - 1], m);
      var n := |checks| - 1;
      if exists i :: 0 <= i < |checks| && checks[i].0 == m && checks[i].1 != checks[i].2 {
        var i :| 0 <= i < |checks| && checks[i].0 == m && checks[i].1 != checks[i].2;
        if i < n {
          assert checks[..n][i] == checks[i];
        }
      }
    }
  }

  /** Every failing check records one error, and only failing checks do. */
  lemma {:induction false} FailingCount(checks: seq<(Mismatch, int, int)>)
    ensures |Failing(checks)| <= |checks|
    ensures |Failing(checks)| == 0 <==> forall i :: 0 <= i < |checks| ==> checks[i].1 == checks[i].2
  {
    if |checks| > 0 {
      var n := |checks| - 1;
      FailingCount(checks[..n]);
      assert forall i :: 0 <= i < n ==> checks[..n][i] == checks[i];
    }
  }

  /** There is no error exactly when the instance's six values equal the folder's. */
  lemma NoErrorsIffEqual(folder: Range, inst: Range)
    ensures |Mismatches(folder, inst)| == 0 <==> folder == inst
    ensures |Mismatches(folder, inst)| <= 6
  {
    var c := FieldChecks(folder, inst);
    FailingCount(c);
    assert c[0].1 == folder.frameStart && c[0].2 == inst.frameStart;
    assert c[1].1 == folder.frameEnd && c[1].2 == inst.frameEnd;
    assert c[2].1 == folder.handleStart && c[2].2 == inst.handleStart;
    assert c[3].1 == folder.handleEnd && c[3].2 == inst.handleEnd;
  }

  /** The four field errors are each recorded exactly when that field differs. */
  lemma FieldRecorded(folder: Range, inst: Range)
    ensures FrameStart in Mismatches(folder, inst) <==> inst.frameStart != folder.frameStart
    ensures FrameEnd in Mismatches(folder, inst) <==> inst.frameEnd != folder.frameEnd
    ensures HandleStart in Mismatches(folder, inst) <==> inst.handleStart != folder.handleStart
    ensures HandleEnd in Mismatches(folder, inst) <==> inst.handleEnd != folder.handleEnd
  {
    var c := FieldChecks(folder, inst);
    assert |c| == 4 && c[0] == (FrameStart, folder.frameStart, inst.frameStart) && c[1] == (FrameEnd, folder.frameEnd, inst.frameEnd);
    assert c[2] == (HandleStart, folder.handleStart, inst.handleStart) && c[3] == (HandleEnd, folder.handleEnd, inst.handleEnd);
    FailingHas(c, FrameStart);
    FailingHas(c, FrameEnd);
    FailingHas(c, HandleStart);
    FailingHas(c, HandleEnd);
  }

  /** The bound errors are each recorded exactly when that bound differs. */
  lemma BoundRecorded(folder: Range, inst: Range)
    ensures StartHandle in Mismatches(folder, inst) <==> inst.frameStartHandle != folder.frameStartHandle
    ensures EndHandle in Mismatches(folder, inst) <==> inst.frameEndHandle != folder.frameEndHandle
  {
    var c := FieldChecks(folder, inst);
    assert |c| == 4 && c[0].0 == FrameStart && c[1].0 == FrameEnd && c[2].0 == HandleStart && c[3].0 == HandleEnd;
    FailingHas(c, StartHandle);
    FailingHas(c, EndHandle);
  }

  /** The exclusion is by substring: an entry `pointcache` also excludes the product type `point`. */
  lemma SubstringExcludes(pre: string, productType: string, post: string)
    ensures Excluded(productType, [pre + productType + post])
  {
    ContainsAt(pre + productType + post, productType, |pre|);
    assert [pre + productType + post][0] == pre + productType + post;
  }

  /** With no exclusions configured, nothing is excluded. */
  lemma NoExcludes(productType: string)
    ensures !Excluded(productType, [])
  { }

  // ---------------------------------------------------------------------
  // repair

  /** The instance node's integer attributes. */
  class InstanceNode {
    var attrs: map<string, int>

    constructor (attrs: map<string, int>)
      ensures this.attrs == attrs
    {
      this.attrs := attrs;
    }

    /**
     * `repair` for an ordinary instance: with a handle attribute the
     * handle and the frame are set apart, without one the frame takes the
     * handle-inclusive bound.
     */
    method Repair(folder: Range)
      modifies this
      ensures "frameStart" in attrs && "frameEnd" in attrs
      ensures "handleStart" in old(attrs) ==>
        "handleStart" in attrs && attrs["handleStart"] == folder.handleStart && attrs["frameStart"] == folder.frameStart
      ensures "handleStart" !in old(attrs) ==> attrs["frameStart"] == folder.frameStartHandle
      ensures "handleEnd" in old(attrs) ==>
        "handleEnd" in attrs && attrs["handleEnd"] == folder.handleEnd && attrs["frameEnd"] == folder.frameEnd
      ensures "handleEnd" !in old(attrs) ==> attrs["frameEnd"] == folder.frameEndHandle
      ensures forall k :: k in old(attrs) ==> k in attrs
      ensures forall k :: k in attrs && k !in {"handleStart", "frameStart", "handleEnd", "frameEnd"} ==>
        k in old(attrs) && attrs[k] == old(attrs)[k]
    {
      if "handleStart" in attrs {
        attrs := attrs["handleStart" := folder.handleStart];
        attrs := attrs["frameStart" := folder.frameStart];
      } else {
        attrs := attrs["frameStart" := folder.frameStartHandle];
      }
      if "handleEnd" in attrs {
        attrs := attrs["handleEnd" := folder.handleEnd];
        attrs := attrs["frameEnd" := folder.frameEnd];
      } else {
        attrs := attrs["frameEnd" := folder.frameEndHandle];
      }
    }
  }

  /** A render setup override on an attribute: absolute, or any other kind. */
  datatype Override = Absolute(value: int) | Relative

  /** One render globals attribute as a render layer sees it. */
  class LayerAttr {
    var global: int
    var overrides: seq<Override>

    constructor (global: int, overrides: seq<Override>)
      ensures this.global == global && this.overrides == overrides
    {
      this.global := global;
      this.overrides := overrides;
    }

    /**
     * `_set_attr_in_layer`: nothing when the layer already reads `value`;
     * else the last override is made (or replaced by a new) absolute one
     * holding `value`; without overrides the global value is set.
     */
    method SetInLayer(value: int, inLayer: int)
      modifies this
      ensures inLayer == value ==> global == old(global) && overrides == old(overrides)
      ensures inLayer != value && |old(overrides)| > 0 ==>
        global == old(global)
        && overrides == (if old(overrides)[|old(overrides)| - 1].Absolute?
                         then old(overrides)[..|old(overrides)| - 1] + [Absolute(value)]
                         else old(overrides) + [Absolute(value)])
      ensures inLayer != value && |old(overrides)| == 0 ==> global == value && overrides == []
      ensures inLayer != value ==> ReadsValue(value)
    {
      if inLayer == value {
        return;
      }
      if |overrides| > 0 {
        if overrides[|overrides| - 1].Absolute? {
          overrides := overrides[..|overrides| - 1] + [Absolute(value)];
        } else {
          overrides := overrides + [Absolute(value)];
        }
      } else {
        global := value;
      }
    }

    /** The last override is an absolute one holding `value`, or there is none and the global is `value`. */
    predicate ReadsValue(value: int)
      reads this
    {
      if |overrides| == 0 then global == value else overrides[|overrides| - 1] == Absolute(value)
    }
  }
}

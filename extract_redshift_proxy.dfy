/**
 * The Redshift proxy extractor: what it does to the instance data, the
 * export options string, the file names of the representation and the
 * render layer exported from.  Loading the plug-in, the render layer
 * switch and the export are Maya calls outside the model.
 */
module ExtractRedshiftProxy {
  import opened Strs
  import opened PyData
  import opened PyConv

  /** The frame keys a still proxy does not need. */
  const StillKeys: set<string> :=
    {"frameStart", "frameEnd", "handleStart", "handleEnd", "frameStartHandle", "frameEndHandle"}

  /** The options every proxy export gets, before any frame range. */
  const BaseOptions: string := "exportConnectivity=0;enableCompression=1;keepUnused=0;"

  /** The proxy's file name pattern: the instance name and `.####.rs`. */
  function FileName(name: string): string {
    name + ".####.rs"
  }

  // ---------------------------------------------------------------------
  // range

  /** Python's `range(start, stop, step)` for a non-zero step. */
  function PyRange(start: int, stop: int, step: int): (r: seq<int>)
    requires step != 0
    ensures |r| > 0 ==> r[0] == start
    decreases if step > 0 then stop - start else start - stop
  {
    if (step > 0 && start < stop) || (step < 0 && start > stop) then [start] + PyRange(start + step, stop, step)
    else []
  }

  /** Each frame is the one before plus the step, and all lie on the start side of the stop. */
  lemma {:induction false} RangeSteps(start: int, stop: int, step: int, i: nat)
    requires step != 0
    ensures i < |PyRange(start, stop, step)| ==>
      (step > 0 ==> PyRange(start, stop, step)[i] < stop) && (step < 0 ==> PyRange(start, stop, step)[i] > stop)
    ensures i + 1 < |PyRange(start, stop, step)| ==>
      PyRange(start, stop, step)[i + 1] == PyRange(start, stop, step)[i] + step
    decreases i
  {
    if i > 0 && |PyRange(start, stop, step)| > 0 {
      RangeSteps(start + step, stop, step, i - 1);
    }
  }

  /** The range ends at the last value before the stop: one more step would reach or pass it. */
  lemma {:induction false} RangeEnds(start: int, stop: int, step: int)
    requires step != 0
    ensures var r := PyRange(start, stop, step);
      |r| > 0 ==> (step > 0 ==> r[|r| - 1] + step >= stop) && (step < 0 ==> r[|r| - 1] + step <= stop)
    ensures step > 0 && start < stop ==> |PyRange(start, stop, step)| > 0
    ensures step > 0 && start >= stop ==> PyRange(start, stop, step) == []
    decreases if step > 0 then stop - start else start - stop
  {
    if (step > 0 && start < stop) || (step < 0 && start > stop) {
      RangeEnds(start + step, stop, step);
    }
  }

  // ---------------------------------------------------------------------
  // The file names

  /** `str(frame).rjust(4, "0")` put in place of `.####.rs`. */
  function FrameFile(fileName: string, frame: int): string {
    Replace(fileName, ".####.rs", "." + RJust(IntToStr(frame), 4, '0') + ".rs")
  }

  /** The file of each frame of `range(start, end + 1, step)`, in order. */
  function FrameFiles(fileName: string, start: int, end: int, step: int): (files: seq<string>)
    requires step != 0
    ensures |files| == |PyRange(start, end + 1, step)|
  {
    var frames := PyRange(start, end + 1, step);
    seq(|frames|, i requires 0 <= i < |frames| => FrameFile(fileName, frames[i]))
  }

  /** The files of the frames `range(start, end + 1, step)` yields, in order. */
  method CollectFrameFiles(fileName: string, start: int, end: int, step: int) returns (files: seq<string>)
    requires step != 0
    ensures files == FrameFiles(fileName, start, end, step)
  {
    var frames := PyRange(start, end + 1, step);
    files := FilesOf(fileName, frames);
    FrameFilesAre(files, fileName, start, end, step);
  }

  /** The loop that pads each frame to four digits and puts it in place of `.####.rs`. */
  method FilesOf(fileName: string, frames: seq<int>) returns (files: seq<string>)
    ensures |files| == |frames|
    ensures forall j :: 0 <= j < |frames| ==> files[j] == FrameFile(fileName, frames[j])
  {
    files := [];
    for i := 0 to |frames|
      invariant |files| == i
      invariant forall j :: 0 <= j < i ==> files[j] == FrameFile(fileName, frames[j])
    {
      var framePadded := RJust(IntToStr(frames[i]), 4, '0');
      files := files + [Replace(fileName, ".####.rs", "." + framePadded + ".rs")];
    }
  }

  /** A list holding the file of each frame, in order, is `FrameFiles`. */
  lemma FrameFilesAre(files: seq<string>, fileName: string, start: int, end: int, step: int)
    requires step != 0
    requires |files| == |PyRange(start, end + 1, step)|
    requires forall j :: 0 <= j < |files| ==> files[j] == FrameFile(fileName, PyRange(start, end + 1, step)[j])
    ensures files == FrameFiles(fileName, start, end, step)
  {
  }

  /** For a name without a dot, frame f's file is the name, the frame padded to four digits and `.rs`. */
  lemma FrameFileOf(name: string, frame: nat)
    requires '.' !in name
    ensures FrameFile(FileName(name), frame) == (name + ".") + ZeroPad(frame, 4) + ".rs"
  {
    var rep := "." + ZeroPad(frame, 4) + ".rs";
    assert FileName(name) == name + ".####.rs" + "";
    ReplaceOnce(name, ".####.rs", "", rep);
    assert name + rep + "" == (name + ".") + ZeroPad(frame, 4) + ".rs";
  }

  lemma Cancel<T>(p: seq<T>, x: seq<T>, y: seq<T>, q: seq<T>)
    requires p + x + q == p + y + q
    ensures x == y
  {
    var s := p + x + q;
    assert |x| == |y|;
    assert s[|p|..|p| + |x|] == x;
    assert (p + y + q)[|p|..|p| + |y|] == y;
  }

  /** Different frames write different files. */
  lemma FrameFilesDistinct(name: string, a: nat, b: nat)
    requires '.' !in name && a != b
    ensures FrameFile(FileName(name), a) != FrameFile(FileName(name), b)
  {
    FrameFileOf(name, a);
    FrameFileOf(name, b);
    if FrameFile(FileName(name), a) == FrameFile(FileName(name), b) {
      Cancel(name + ".", ZeroPad(a, 4), ZeroPad(b, 4), ".rs");
      ZeroPadInjective(a, b, 4);
    }
  }

  // ---------------------------------------------------------------------
  // process

  /** What the export is given and what the instance ends up with. */
  datatype Export = Export(data: map<string, Value>, options: string, files: Value, layer: Value)

  /** `instance.data[key]`, which raises `KeyError` for a missing key. */
  function Lookup(data: map<string, Value>, key: string): Result<Value> {
    if key in data then Ok(data[key]) else Err("KeyError: '" + key + "'")
  }

  /** `str(v)`, as `format` writes it: a string as it is, anything else as its `repr`. */
  function Str(v: Value): string {
    if v.VStr? then v.s else Repr(v)
  }

  /**
   * `int(v)` for a frame value: an int as it is, a bool as 0 or 1, a float
   * truncated toward zero, a string parsed as a decimal literal; anything
   * else raises `TypeError`.
   */
  function FrameInt(v: Value): Result<int> {
    match v
    case VInt(i) => Ok(i)
    case VBool(b) => Ok(if b then 1 else 0)
    case VFloat(t) => TruncFloat(t)
    case VStr(s) => if ParseInt(s).Some? then Ok(ParseInt(s).value) else Err("ValueError: invalid literal for int()")
    case _ => Err("TypeError: int() argument must be a string or a number")
  }

  function Representation(files: Value, stagingDir: string): Value {
    VDict([("name", VStr("rs")), ("ext", VStr("rs")), ("files", files), ("stagingDir", VStr(stagingDir))])
  }

  /** The representation appended to `representations`, which is created when missing. */
  function WithRepresentation(data: map<string, Value>, rep: Value): Result<map<string, Value>> {
    var guarded := if "representations" in data then data else data["representations" := VList([])];
    match guarded["representations"]
    case VList(items) => Ok(guarded["representations" := VList(items + [rep])])
    case _ => Err("AttributeError: 'append'")
  }

  /** The frame range options, the raw values as `str` writes them. */
  function RangeOptions(start0: Value, end0: Value, step0: Value): string {
    "startFrame=" + Str(start0) + ";endFrame=" + Str(end0) + ";frameStep=" + Str(step0) + ";"
  }

  /**
   * The animated branch, from the raw frame values: the options carry them
   * as `str` writes them, the file names use `int` of each, and a zero step
   * raises as `range` does.
   */
  function Animated(name: string, stagingDir: string, data: map<string, Value>, start0: Value, end0: Value, step0: Value, layer: Value): Result<Export> {
    var options := BaseOptions + RangeOptions(start0, end0, step0);
    match (FrameInt(start0), FrameInt(end0), FrameInt(step0))
    case (Ok(start), Ok(end), Ok(step)) =>
      if step == 0 then Err("ValueError: range() arg 3 must not be zero")
      else
        var files := VList(StrValues(FrameFiles(FileName(name), start, end, step)));
        (match WithRepresentation(data, Representation(files, stagingDir))
         case Err(e) => Err(e)
         case Ok(d) => Ok(Export(d, options, files, layer)))
    case (Err(e), _, _) => Err(e)
    case (_, Err(e), _) => Err(e)
    case (_, _, Err(e)) => Err(e)
  }

  /**
   * `process`: a still proxy loses its frame keys and has the single
   * pattern file; an animated one keeps them, its options gain the frame
   * range, and it has one file per frame.
   */
  function Extract(name: string, stagingDir: string, data: map<string, Value>): (r: Result<Export>)
    ensures r.Ok? ==> "animation" in data
  {
    if "animation" !in data then Err("KeyError: 'animation'")
    else
      var layer := if "renderLayer" in data then data["renderLayer"] else VStr("defaultRenderLayer");
      if !Truthy(data["animation"]) then
        var kept := data - StillKeys;
        match WithRepresentation(kept, Representation(VStr(FileName(name)), stagingDir))
        case Err(e) => Err(e)
        case Ok(d) => Ok(Export(d, BaseOptions, VStr(FileName(name)), layer))
      else
        match (Lookup(data, "frameStartHandle"), Lookup(data, "frameEndHandle"), Lookup(data, "step"))
        case (Ok(start0), Ok(end0), Ok(step0)) => Animated(name, stagingDir, data, start0, end0, step0, layer)
        case (Err(e), _, _) => Err(e)
        case (_, Err(e), _) => Err(e)
        case (_, _, Err(e)) => Err(e)
  }

  /** A still proxy: no frame keys remain, nothing else is lost, and the file is the pattern name. */
  lemma StillProxy(name: string, stagingDir: string, data: map<string, Value>)
    requires "animation" in data && !Truthy(data["animation"])
    requires "representations" !in data || data["representations"].VList?
    ensures var r := Extract(name, stagingDir, data);
      && r.Ok?
      && (forall k :: k in StillKeys ==> k !in r.value.data)
      && (forall k :: k in data && k !in StillKeys ==> k in r.value.data)
      && (forall k :: k in data && k !in StillKeys && k != "representations" ==> r.value.data[k] == data[k])
      && r.value.options == BaseOptions
      && r.value.files == VStr(name + ".####.rs")
  { }

  /**
   * An animated proxy: the options gain the raw range after the base
   * options, there is a file per frame of the converted range, and no key
   * of the instance is lost.
   */
  lemma AnimatedProxy(name: string, stagingDir: string, data: map<string, Value>, start: int, end: int, step: int)
    requires "animation" in data && Truthy(data["animation"])
    requires "frameStartHandle" in data && FrameInt(data["frameStartHandle"]) == Ok(start)
    requires "frameEndHandle" in data && FrameInt(data["frameEndHandle"]) == Ok(end)
    requires "step" in data && FrameInt(data["step"]) == Ok(step) && step != 0
    requires "representations" !in data || data["representations"].VList?
    ensures var r := Extract(name, stagingDir, data);
      && r.Ok?
      && r.value.options == BaseOptions + RangeOptions(data["frameStartHandle"], data["frameEndHandle"], data["step"])
      && r.value.files == VList(StrValues(FrameFiles(FileName(name), start, end, step)))
      && forall k :: k in data ==> k in r.value.data
  { }

  /**
   * Whole frames given as floats, as the publisher usually stores them:
   * the options carry the float text and the files are those of the whole
   * frames, one per frame.
   */
  lemma FloatFrames(name: string, stagingDir: string, data: map<string, Value>, start: int, end: int)
    requires "animation" in data && Truthy(data["animation"])
    requires "frameStartHandle" in data && data["frameStartHandle"] == VFloat(IntToStr(start) + ".0")
    requires "frameEndHandle" in data && data["frameEndHandle"] == VFloat(IntToStr(end) + ".0")
    requires "step" in data && data["step"] == VFloat("1.0")
    requires "representations" !in data || data["representations"].VList?
    ensures var r := Extract(name, stagingDir, data);
      && r.Ok?
      && r.value.options == BaseOptions + ("startFrame=" + (IntToStr(start) + ".0") + ";endFrame=" + (IntToStr(end) + ".0") + ";frameStep=" + "1.0" + ";")
      && r.value.files == VList(StrValues(FrameFiles(FileName(name), start, end, 1)))
  {
    TruncWhole(start);
    TruncWhole(end);
    TruncWhole(1);
    assert FrameInt(data["step"]) == Ok(1) by {
      assert IntToStr(1) + ".0" == "1.0";
    }
    AnimatedProxy(name, stagingDir, data, start, end, 1);
    StrFloat(IntToStr(start) + ".0");
    StrFloat(IntToStr(end) + ".0");
    StrFloat("1.0");
  }

  lemma StrFloat(t: string)
    ensures Str(VFloat(t)) == t
  { }

  /** A step that converts to zero raises, as `range` does. */
  lemma ZeroStep(name: string, stagingDir: string, data: map<string, Value>)
    requires "animation" in data && Truthy(data["animation"])
    requires "frameStartHandle" in data && FrameInt(data["frameStartHandle"]).Ok?
    requires "frameEndHandle" in data && FrameInt(data["frameEndHandle"]).Ok?
    requires "step" in data && FrameInt(data["step"]) == Ok(0)
    ensures Extract(name, stagingDir, data) == Err("ValueError: range() arg 3 must not be zero")
  { }

  /** A missing frame key raises `KeyError` for the first one missing, in the order the code reads them. */
  lemma MissingFrameKey(name: string, stagingDir: string, data: map<string, Value>)
    requires "animation" in data && Truthy(data["animation"])
    requires "frameStartHandle" in data && "frameEndHandle" in data && "step" !in data
    ensures Extract(name, stagingDir, data) == Err("KeyError: 'step'")
  { }

  /** Without `renderLayer` the export is from the default render layer. */
  lemma DefaultLayer(name: string, stagingDir: string, data: map<string, Value>)
    requires "renderLayer" !in data
    requires Extract(name, stagingDir, data).Ok?
    ensures Extract(name, stagingDir, data).value.layer == VStr("defaultRenderLayer")
  { }
}

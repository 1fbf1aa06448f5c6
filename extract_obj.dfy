/**
 * The OBJ extractor: the export options string, the `.mtl` sidecar path,
 * the texture files read from the `.mtl` file, the transfers that copy
 * them, and the representation the extractor adds.  The export itself
 * and the mesh selection are Maya calls outside the model.
 */
module ExtractObj {
  import opened Strs
  import opened PyData
  import opened PosixPath

  // ---------------------------------------------------------------------
  // get_textures_from_mtl

  /** The `.mtl` statements that name a texture file, each with its trailing space. */
  const MapPrefixes: seq<string> :=
    ["map_Ka ", "map_Kd ", "map_Ks ", "map_Ns ", "map_d ", "disp ", "decal ", "bump ", "refl "]

  /** `line.startswith(map_prefixes)`: case-sensitive, at column 0. */
  predicate IsMapLine(line: string) {
    exists i :: 0 <= i < |MapPrefixes| && StartsWith(line, MapPrefixes[i])
  }

  /** The last space-separated token of the stripped line. */
  function TextureName(line: string): string {
    AfterLast(StripWs(line), ' ')
  }

  /** The texture paths a `.mtl` file in `folder` with these lines names. */
  function Textures(folder: string, lines: seq<string>): set<string> {
    if |lines| == 0 then {}
    else
      var last := lines[|lines| - 1];
      Textures(folder, lines[..|lines| - 1]) + (if IsMapLine(last) then {JoinName(folder, TextureName(last))} else {})
  }

  /**
   * `get_textures_from_mtl`: each line of the file that starts with a map
   * prefix adds its last token, joined to the file's folder, to a set.
   */
  method GetTexturesFromMtl(mtlPath: string, lines: seq<string>) returns (paths: set<string>)
    ensures paths == Textures(Dirname(mtlPath), lines)
  {
    var folder := Dirname(mtlPath);
    paths := {};
    for i := 0 to |lines|
      invariant paths == Textures(folder, lines[..i])
    {
      assert lines[..i + 1][..i] == lines[..i];
      if IsMapLine(lines[i]) {
        var line := StripWs(lines[i]);
        var filename := AfterLast(line, ' ');
        paths := paths + {JoinName(folder, filename)};
      }
    }
    assert lines[..|lines|] == lines;
  }

  /** `line` is a map line naming `p`. */
  predicate Names(folder: string, line: string, p: string) {
    IsMapLine(line) && p == JoinName(folder, TextureName(line))
  }

  /** Every texture is named by some map line of the file. */
  lemma {:induction false} TextureNamed(folder: string, lines: seq<string>, p: string) returns (i: nat)
    requires p in Textures(folder, lines)
    ensures i < |lines| && Names(folder, lines[i], p)
    decreases |lines|
  {
    var init := lines[..|lines| - 1];
    if p in Textures(folder, init) {
      i := TextureNamed(folder, init, p);
      assert lines[i] == init[i];
    } else {
      i := |lines| - 1;
    }
  }

  /** Every map line names a texture. */
  lemma {:induction false} NamedTexture(folder: string, lines: seq<string>, p: string, i: nat)
    requires i < |lines| && Names(folder, lines[i], p)
    ensures p in Textures(folder, lines)
    decreases |lines|
  {
    if i < |lines| - 1 {
      var init := lines[..|lines| - 1];
      assert init[i] == lines[i];
      NamedTexture(folder, init, p, i);
    }
  }

  /** A path is a texture exactly when some map line of the file names it. */
  lemma TexturesMember(folder: string, lines: seq<string>, p: string)
    ensures p in Textures(folder, lines) <==> exists i :: 0 <= i < |lines| && Names(folder, lines[i], p)
  {
    if p in Textures(folder, lines) {
      var i := TextureNamed(folder, lines, p);
    }
    if exists i :: 0 <= i < |lines| && Names(folder, lines[i], p) {
      var i :| 0 <= i < |lines| && Names(folder, lines[i], p);
      NamedTexture(folder, lines, p, i);
    }
  }

  /** The textures of two runs of lines are those of each. */
  lemma {:induction false} TexturesAppend(folder: string, a: seq<string>, b: seq<string>)
    ensures Textures(folder, a + b) == Textures(folder, a) + Textures(folder, b)
    decreases |b|
  {
    if |b| == 0 {
      assert a + b == a;
    } else {
      assert (a + b)[..|a + b| - 1] == a + b[..|b| - 1];
      assert (a + b)[|a + b| - 1] == b[|b| - 1];
      TexturesAppend(folder, a, b[..|b| - 1]);
    }
  }

  /** Reading the same lines twice adds nothing: the result is a set. */
  lemma TexturesRepeat(folder: string, lines: seq<string>)
    ensures Textures(folder, lines + lines) == Textures(folder, lines)
  {
    TexturesAppend(folder, lines, lines);
  }

  /** A line that is not a map line adds nothing, wherever it stands. */
  lemma TexturesIgnore(folder: string, a: seq<string>, l: string, b: seq<string>)
    requires !IsMapLine(l)
    ensures Textures(folder, a + [l] + b) == Textures(folder, a + b)
  {
    TexturesAppend(folder, a + [l], b);
    TexturesAppend(folder, a, b);
    assert (a + [l])[..|a|] == a;
  }

  /** A map statement contributes the file it names, in the `.mtl` file's folder. */
  lemma MapLineTexture(i: nat, name: string, eol: string)
    requires i < |MapPrefixes|
    requires |name| > 0 && ' ' !in name && name[0] !in Whitespace && name[|name| - 1] !in Whitespace
    requires forall j :: 0 <= j < |eol| ==> eol[j] in Whitespace
    ensures IsMapLine(MapPrefixes[i] + name + eol)
    ensures TextureName(MapPrefixes[i] + name + eol) == name
  {
    var p := MapPrefixes[i];
    var stem := p[..|p| - 1];
    assert p == stem + [' '];
    assert (p + name + eol)[..|p|] == p;
    StripBetween("", p + name, eol, Whitespace);
    assert "" + (p + name) + eol == p + name + eol;
    assert p[0] !in Whitespace;
    assert (p + name)[0] == p[0];
    assert p + name == stem + [' '] + name;
    RSplitAppend(stem, name, ' ');
  }

  /** The prefixes are case-sensitive: a line starting with none of their first letters never counts. */
  lemma NotMapLine(c: char, rest: string)
    requires c !in {'m', 'd', 'b', 'r'}
    ensures !IsMapLine([c] + rest)
  {
    forall i | 0 <= i < |MapPrefixes| ensures !StartsWith([c] + rest, MapPrefixes[i]) {
      var p := MapPrefixes[i];
      assert p[0] in {'m', 'd', 'b', 'r'};
      if |p| <= |[c] + rest| {
        assert ([c] + rest)[..|p|][0] == c;
      }
    }
  }

  // ---------------------------------------------------------------------
  // The export options

  /** The default OBJ export options, in order. */
  const ObjOptions: Entries<int> :=
    [("groups", 1), ("ptgroups", 1), ("materials", 0), ("smoothing", 1), ("normals", 1)]

  /** The options for this instance: materials are exported when shaders are included. */
  function Options(includeShaders: bool): Entries<int> {
    if includeShaders then Put(ObjOptions, "materials", 1) else ObjOptions
  }

  /** The `key=val` items of the options string, in the options' order. */
  function OptionItems(options: Entries<int>): (items: seq<string>)
    ensures |items| == |options|
  {
    seq(|options|, i requires 0 <= i < |options| => options[i].0 + "=" + IntToStr(options[i].1))
  }

  /** The `op` string handed to the export: the items joined by `;`. */
  function OptionsString(includeShaders: bool): string {
    Join(OptionItems(Options(includeShaders)), ";")
  }

  lemma IntToStrNoSemicolon(n: int)
    ensures ';' !in IntToStr(n)
  {
    var s := NatToStr(if n < 0 then -n else n);
    assert forall j :: 0 <= j < |s| ==> IsDigit(s[j]);
  }

  /**
   * The options string splits at `;` into five `key=val` items with the
   * default keys in order; the third is `materials=1` exactly when shaders
   * are included.
   */
  lemma OptionsStringItems(includeShaders: bool)
    ensures var items := Split(OptionsString(includeShaders), ';');
      && |items| == 5
      && Keys(Options(includeShaders)) == Keys(ObjOptions)
      && items == OptionItems(Options(includeShaders))
      && items[2] == "materials" + "=" + IntToStr(if includeShaders then 1 else 0)
  {
    var options := Options(includeShaders);
    assert HasKey(ObjOptions, "materials") by { assert ObjOptions[2].0 == "materials"; }
    assert options[2] == ("materials", if includeShaders then 1 else 0);
    var items := OptionItems(options);
    forall i | 0 <= i < |items| ensures ';' !in items[i] {
      IntToStrNoSemicolon(options[i].1);
      assert ';' !in options[i].0 by {
        assert options[i].0 == ObjOptions[i].0;
      }
    }
    SplitJoin(items, ';');
  }

  // ---------------------------------------------------------------------
  // The `.mtl` sidecar and the transfers

  /** `path[:-len(".obj")] + ".mtl"`. */
  function MtlPath(path: string): string {
    (if |path| >= 4 then path[..|path| - 4] else "") + ".mtl"
  }

  /** The `.obj` path with its suffix replaced. */
  lemma MtlPathOf(stem: string)
    ensures MtlPath(stem + ".obj") == stem + ".mtl"
  {
    assert (stem + ".obj")[..|stem|] == stem;
  }

  /** Each texture is copied to the publish folder under its own file name. */
  function TextureTransfers(textures: set<string>, publishDir: string): set<(string, string)> {
    set t | t in textures :: (t, PathJoin(publishDir, Basename(t)))
  }

  /** Every transfer copies one of the textures, and every texture is copied. */
  lemma TextureTransfersExactly(textures: set<string>, publishDir: string, t: string)
    ensures t in textures <==> (t, PathJoin(publishDir, Basename(t))) in TextureTransfers(textures, publishDir)
    ensures forall tr :: tr in TextureTransfers(textures, publishDir) ==> tr.0 in textures
  { }

  // ---------------------------------------------------------------------
  // The representation

  function Representation(filename: string, stagingDir: string): Value {
    VDict([("name", VStr("obj")), ("ext", VStr("obj")), ("files", VStr(filename)), ("stagingDir", VStr(stagingDir))])
  }

  /**
   * The end of `process` as written: the guard initialises a key named
   * `representation`, then the representation is appended to
   * `representations`, which raises KeyError when that key is missing.
   */
  function AddRepresentationAsWritten(data: map<string, Value>, rep: Value): (r: Result<map<string, Value>>)
    ensures r.Ok? ==> "representations" in data
  {
    var guarded := if "representation" in data then data else data["representation" := VList([])];
    if "representations" !in guarded then Err("KeyError: 'representations'")
    else match guarded["representations"]
      case VList(items) => Ok(guarded["representations" := VList(items + [rep])])
      case _ => Err("AttributeError: 'append'")
  }

  /** The guard initialises the list the representation is appended to. */
  function AddRepresentation(data: map<string, Value>, rep: Value): (r: Result<map<string, Value>>)
    ensures "representations" !in data ==> r == Ok(data["representations" := VList([rep])])
    ensures r.Ok? ==> "representations" in r.value && r.value.Keys == data.Keys + {"representations"}
  {
    var guarded := if "representations" in data then data else data["representations" := VList([])];
    assert [] + [rep] == [rep];
    assert "representations" !in data ==>
      guarded["representations" := VList([] + [rep])] == data["representations" := VList([rep])];
    match guarded["representations"]
    case VList(items) => Ok(guarded["representations" := VList(items + [rep])])
    case _ => Err("AttributeError: 'append'")
  }

  /** A list of representations gains exactly the new one at its end. */
  lemma AddRepresentationAppends(data: map<string, Value>, rep: Value, items: seq<Value>)
    requires "representations" in data && data["representations"] == VList(items)
    ensures AddRepresentation(data, rep) == Ok(data["representations" := VList(items + [rep])])
    ensures AddRepresentationAsWritten(data, rep).Ok?
    ensures AddRepresentationAsWritten(data, rep).value["representations"] == VList(items + [rep])
  { }

  /** Without `representations`, the code as written raises where the guard meant to create the list. */
  lemma MissingRepresentations(data: map<string, Value>, rep: Value)
    requires "representations" !in data
    ensures AddRepresentationAsWritten(data, rep) == Err("KeyError: 'representations'")
    ensures AddRepresentation(data, rep) == Ok(data["representations" := VList([rep])])
  { }
}

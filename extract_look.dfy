/**
 * The look extractor's bookkeeping around texture files: where a resource
 * is published to, how one texture is processed (by at most one texture
 * processor), how the files of all resources are processed once each, the
 * scene type read from the extension mapping, and the `maketx` argument
 * list read from the project settings.  Running `maketx`, hashing files
 * and querying Maya are inputs of the model.
 */
module ExtractLook {
  import opened Strs
  import opened PyData
  import opened PosixPath

  // ---------------------------------------------------------------------
  // get_resource_destination

  /** A texture processor, seen through the extension of the files it writes (None when it keeps them). */
  datatype Processor = Processor(name: string, extension: Option<string>)

  const MakeTxProcessor := Processor("MakeTX", Some(".tx"))
  const MakeRsTexBinProcessor := Processor("MakeRSTexBin", Some(".rstexbin"))

  /** The extension the last processor imposes, when it has a non-empty one. */
  predicate Overrides(processors: seq<Processor>) {
    |processors| > 0 && processors[|processors| - 1].extension.Some?
    && processors[|processors| - 1].extension.value != ""
  }

  /** `get_resource_destination`: the resources directory joined with the file's name and the chosen extension. */
  method GetResourceDestination(filepath: string, resourcesDir: string, processors: seq<Processor>) returns (r: string)
    ensures r == Destination(filepath, resourcesDir, processors)
  {
    var (basename, ext) := Splitext(Basename(filepath));
    // The source loops over the processors in reverse and breaks after the first.
    if |processors| > 0 {
      var processorExt := processors[|processors| - 1].extension;
      if processorExt.Some? && processorExt.value != "" && ext != processorExt.value {
        ext := processorExt.value;
      }
    }
    r := PathJoin(resourcesDir, basename + ext);
  }

  /** The extension a destination gets: the last processor's, if it has one, otherwise the file's own. */
  function DestinationExt(ext: string, processors: seq<Processor>): string {
    if Overrides(processors) then processors[|processors| - 1].extension.value else ext
  }

  function Destination(filepath: string, resourcesDir: string, processors: seq<Processor>): string {
    var (basename, ext) := Splitext(Basename(filepath));
    PathJoin(resourcesDir, basename + DestinationExt(ext, processors))
  }

  /** Without an overriding last processor the destination keeps the file's name; with one, its root gets the new extension. */
  lemma DestinationName(filepath: string, resourcesDir: string, processors: seq<Processor>)
    ensures !Overrides(processors) ==> Destination(filepath, resourcesDir, processors) == PathJoin(resourcesDir, Basename(filepath))
    ensures Overrides(processors) ==>
      Destination(filepath, resourcesDir, processors)
      == PathJoin(resourcesDir, Splitext(Basename(filepath)).0 + processors[|processors| - 1].extension.value)
  {
    SplitextJoin(Basename(filepath));
  }

  /** Only the last processor counts: processors before it never change the destination. */
  lemma DestinationLastOnly(filepath: string, resourcesDir: string, earlier: seq<Processor>, processors: seq<Processor>)
    requires |processors| > 0
    ensures Destination(filepath, resourcesDir, earlier + processors) == Destination(filepath, resourcesDir, processors)
  {
    LastOfConcat(earlier, processors);
  }

  /** `<dir>/<name>.exr` published through `maketx` becomes `<resources>/<name>.tx`. */
  lemma DestinationWithMakeTx(dir: string, name: string, resourcesDir: string)
    requires '/' !in name && '.' !in name && |name| > 0
    requires dir == "" || dir[|dir| - 1] != '/'
    requires resourcesDir != "" && resourcesDir[|resourcesDir| - 1] != '/'
    ensures Destination(dir + "/" + (name + ".exr"), resourcesDir, [MakeTxProcessor]) == resourcesDir + "/" + (name + ".tx")
  {
    assert name[0] != '.';
    assert "exr" == ".exr"[1..];
    SplitextOf(name, ".exr");
    SplitPathAt(dir, name + ".exr");
  }

  // ---------------------------------------------------------------------
  // _set_resource_result_colorspace

  /** A texture resource of the look: its colour space, files, the attribute and node it comes from. */
  datatype Resource = Resource(
    colorSpace: string, files: seq<string>, attribute: string, source: string, node: string,
    resultColorSpace: Option<string>)

  /**
   * `_set_resource_result_colorspace`: the resource's result colour space
   * becomes the given one, whatever it was (a different earlier value is
   * only logged); nothing else about the resource changes.
   */
  function SetResultColorspace(resource: Resource, colorspace: string): (r: Resource)
    ensures r.resultColorSpace == Some(colorspace)
    ensures r.(resultColorSpace := resource.resultColorSpace) == resource
  {
    if resource.resultColorSpace == Some(colorspace) then resource
    else resource.(resultColorSpace := Some(colorspace))
  }

  // ---------------------------------------------------------------------
  // _process_texture

  const Copy := 1
  const Hardlink := 2

  datatype TextureResult = TextureResult(path: string, fileHash: string, colorspace: string, transferMode: int)

  /**
   * `_process_texture`.  `run(p, path, colorspace)` is what processor `p`
   * returns (None for no result); `hash` is the file's source hash.  With
   * no processor and without `forceCopy` the lookup of published hashes is
   * reached, and that lookup always raises.
   */
  function ProcessTexture(filepath: string, processors: seq<Processor>, forceCopy: bool, colorspace: string,
                          hash: string, run: (Processor, string, string) -> Option<TextureResult>): (r: Result<TextureResult>)
    ensures |processors| > 1 ==> r.Err?
    ensures |processors| == 1 ==> (r.Ok? <==> run(processors[0], filepath, colorspace).Some?)
    ensures |processors| == 1 && r.Ok? ==> r.value == run(processors[0], filepath, colorspace).value
    ensures |processors| == 0 ==> (r.Ok? <==> forceCopy)
    ensures |processors| == 0 && r.Ok? ==>
      r.value.path == filepath && r.value.colorspace == colorspace && r.value.transferMode == Copy
  {
    if |processors| > 1 then Err("KnownPublishError: More than one texture processor not supported.")
    else if |processors| == 1 then
      match run(processors[0], filepath, colorspace)
      case None => Err("RuntimeError: Texture Processor returned no result.")
      case Some(result) => Ok(result)
    else if !forceCopy then Err(FindPathsByHashError)
    else Ok(TextureResult(filepath, hash, colorspace, Copy))
  }

  /** `find_paths_by_hash` raises whatever it is given. */
  const FindPathsByHashError := "KnownPublishError: find_paths_by_hash is not compatible with AYON."

  /** The hardlink branch is unreachable: without forced copy the hash lookup raises first. */
  lemma NoHardlinkWithoutProcessor(filepath: string, colorspace: string, hash: string,
                                   run: (Processor, string, string) -> Option<TextureResult>)
    ensures ProcessTexture(filepath, [], false, colorspace, hash, run) == Err(FindPathsByHashError)
  { }

  // ---------------------------------------------------------------------
  // process_resources

  /** What the extraction is given: processors, the resources directory and the queries it makes. */
  datatype Context = Context(
    processors: seq<Processor>, resourcesDir: string,
    normpath: string -> string, hashOf: string -> string,
    run: (Processor, string, string) -> Option<TextureResult>,
    hasColorSpace: string -> bool)

  /** The accumulated result: processed files (normalised path to colour space and result colour space) and the outputs. */
  datatype Extracted = Extracted(
    processed: map<string, (string, string)>, transfers: seq<(string, string)>,
    hardlinks: seq<(string, string)>, hashes: map<string, string>, attrRemap: Entries<string>)

  const Start := Extracted(map[], [], [], map[], [])

  /** Copying is always forced in `process_resources`. */
  const ForceCopy := true

  /** One file of a resource: a file already processed only passes its result colour space on. */
  function FileStep(ctx: Context, st: Extracted, resource: Resource, file: string): Result<(Extracted, Resource)> {
    var filepath := ctx.normpath(file);
    if filepath in st.processed then
      Ok((st, SetResultColorspace(resource, st.processed[filepath].1)))
    else
      match ProcessTexture(filepath, ctx.processors, ForceCopy, resource.colorSpace, ctx.hashOf(filepath), ctx.run)
      case Err(e) => Err(e)
      case Ok(t) =>
        var destination := Destination(t.path, ctx.resourcesDir, ctx.processors);
        Ok((st.(processed := st.processed[filepath := (resource.colorSpace, t.colorspace)],
                transfers := st.transfers + [(t.path, destination)],
                hashes := st.hashes[t.fileHash := destination]),
            SetResultColorspace(resource, t.colorspace)))
  }

  /** The files of one resource, in order; the first failure stops the extraction. */
  function FilesStep(ctx: Context, st: Extracted, resource: Resource, files: seq<string>): Result<(Extracted, Resource)>
    decreases |files|
  {
    if |files| == 0 then Ok((st, resource))
    else
      match FilesStep(ctx, st, resource, files[..|files| - 1])
      case Err(e) => Err(e)
      case Ok((st', res')) => FileStep(ctx, st', res', files[|files| - 1])
  }

  /** The attribute remapping of one resource, after its files. */
  function RemapStep(ctx: Context, st: Extracted, resource: Resource): Result<Extracted> {
    var remap := Put(st.attrRemap, resource.attribute, Destination(resource.source, ctx.resourcesDir, ctx.processors));
    if !ctx.hasColorSpace(resource.node) then Ok(st.(attrRemap := remap))
    else if resource.resultColorSpace.None? then Err("KeyError: 'result_color_space'")
    else Ok(st.(attrRemap := Put(remap, resource.node + ".colorSpace", resource.resultColorSpace.value)))
  }

  function ResourceStep(ctx: Context, st: Extracted, resource: Resource): Result<(Extracted, Resource)> {
    match FilesStep(ctx, st, resource, resource.files)
    case Err(e) => Err(e)
    case Ok((st', res')) =>
      match RemapStep(ctx, st', res')
      case Err(e) => Err(e)
      case Ok(st'') => Ok((st'', res'))
  }

  /** `process_resources` over the resources in order: the outputs and the updated resources. */
  function Extraction(ctx: Context, resources: seq<Resource>): Result<(Extracted, seq<Resource>)>
    decreases |resources|
  {
    if |resources| == 0 then Ok((Start, []))
    else
      match Extraction(ctx, resources[..|resources| - 1])
      case Err(e) => Err(e)
      case Ok((st, done)) =>
        match ResourceStep(ctx, st, resources[|resources| - 1])
        case Err(e) => Err(e)
        case Ok((st', res)) => Ok((st', done + [res]))
  }

  /**
   * `process_resources`.  Destinations are cached per path; the cache
   * never holds anything but the uncached destination.
   */
  method ProcessResources(ctx: Context, resources: seq<Resource>) returns (r: Result<(Extracted, seq<Resource>)>)
    ensures r == Extraction(ctx, resources)
  {
    var cache: map<string, string> := map[];
    var st := Start;
    var done: seq<Resource> := [];
    var i := 0;
    while i < |resources|
      invariant 0 <= i <= |resources|
      invariant Extraction(ctx, resources[..i]) == Ok((st, done))
      invariant forall p :: p in cache ==> cache[p] == Destination(p, ctx.resourcesDir, ctx.processors)
    {
      var files := resources[i].files;
      var resource := resources[i];
      var cur := st;
      var j := 0;
      while j < |files|
        invariant 0 <= j <= |files|
        invariant FilesStep(ctx, st, resources[i], files[..j]) == Ok((cur, resource))
        invariant forall p :: p in cache ==> cache[p] == Destination(p, ctx.resourcesDir, ctx.processors)
      {
        TakeTake(files, j);
        var filepath := ctx.normpath(files[j]);
        if filepath in cur.processed {
          resource := SetResultColorspace(resource, cur.processed[filepath].1);
        } else {
          var texture := ProcessTexture(filepath, ctx.processors, ForceCopy, resource.colorSpace, ctx.hashOf(filepath), ctx.run);
          if texture.Err? {
            FilesErr(ctx, st, resources[i], files, j + 1);
            ResourceErr(ctx, resources, i, st, done, texture.error);
            return Err(texture.error);
          }
          var t := texture.value;
          var destination;
          destination, cache := CachedDestination(ctx, cache, t.path);
          cur := cur.(processed := cur.processed[filepath := (resource.colorSpace, t.colorspace)],
                      transfers := cur.transfers + [(t.path, destination)],
                      hashes := cur.hashes[t.fileHash := destination]);
          resource := SetResultColorspace(resource, t.colorspace);
        }
        j := j + 1;
      }
      FullPrefix(files);
      var destination;
      destination, cache := CachedDestination(ctx, cache, resource.source);
      var remap := Put(cur.attrRemap, resource.attribute, destination);
      if ctx.hasColorSpace(resource.node) {
        if resource.resultColorSpace.None? {
          ResourceErr(ctx, resources, i, st, done, "KeyError: 'result_color_space'");
          return Err("KeyError: 'result_color_space'");
        }
        remap := Put(remap, resource.node + ".colorSpace", resource.resultColorSpace.value);
      }
      st := cur.(attrRemap := remap);
      done := done + [resource];
      TakeTake(resources, i);
      i := i + 1;
    }
    FullPrefix(resources);
    r := Ok((st, done));
  }

  /** A failure in the first `k` files is the failure of all of them. */
  lemma {:induction false} FilesErrStops(ctx: Context, st: Extracted, resource: Resource, files: seq<string>, k: nat)
    requires k <= |files| && FilesStep(ctx, st, resource, files[..k]).Err?
    ensures FilesStep(ctx, st, resource, files) == FilesStep(ctx, st, resource, files[..k])
    decreases |files|
  {
    if k == |files| {
      FullPrefix(files);
    } else {
      var init := files[..|files| - 1];
      assert init[..k] == files[..k];
      FilesErrStops(ctx, st, resource, init, k);
    }
  }

  lemma FilesErr(ctx: Context, st: Extracted, resource: Resource, files: seq<string>, k: nat)
    requires k <= |files| && FilesStep(ctx, st, resource, files[..k]).Err?
    ensures FilesStep(ctx, st, resource, files).Err?
    ensures FilesStep(ctx, st, resource, files).error == FilesStep(ctx, st, resource, files[..k]).error
  {
    FilesErrStops(ctx, st, resource, files, k);
  }

  /** A failure among the first `k` resources is the failure of the extraction. */
  lemma {:induction false} ExtractionErrStops(ctx: Context, resources: seq<Resource>, k: nat)
    requires k <= |resources| && Extraction(ctx, resources[..k]).Err?
    ensures Extraction(ctx, resources) == Extraction(ctx, resources[..k])
    decreases |resources|
  {
    if k == |resources| {
      FullPrefix(resources);
    } else {
      var init := resources[..|resources| - 1];
      assert init[..k] == resources[..k];
      ExtractionErrStops(ctx, init, k);
    }
  }

  /** Resource `i` failing after the earlier ones succeeded fails the extraction with its error. */
  lemma ResourceErr(ctx: Context, resources: seq<Resource>, i: nat, st: Extracted, done: seq<Resource>, e: string)
    requires i < |resources| && Extraction(ctx, resources[..i]) == Ok((st, done))
    requires ResourceStep(ctx, st, resources[i]) == Err(e)
    ensures Extraction(ctx, resources) == Err(e)
  {
    TakeTake(resources, i);
    ExtractionErrStops(ctx, resources, i + 1);
  }

  /** `get_resource_destination_cached`. */
  method CachedDestination(ctx: Context, cache: map<string, string>, path: string)
    returns (destination: string, cache': map<string, string>)
    requires forall p :: p in cache ==> cache[p] == Destination(p, ctx.resourcesDir, ctx.processors)
    ensures destination == Destination(path, ctx.resourcesDir, ctx.processors)
    ensures forall p :: p in cache' ==> cache'[p] == Destination(p, ctx.resourcesDir, ctx.processors)
    ensures cache.Keys <= cache'.Keys
  {
    cache' := cache;
    if path !in cache' {
      destination := GetResourceDestination(path, ctx.resourcesDir, ctx.processors);
      cache' := cache'[path := destination];
    }
    destination := cache'[path];
  }

  /** The normalised paths of `files`. */
  function SeenFiles(normpath: string -> string, files: seq<string>): set<string>
    decreases |files|
  {
    if |files| == 0 then {} else SeenFiles(normpath, files[..|files| - 1]) + {normpath(files[|files| - 1])}
  }

  /** The normalised paths of all files of `resources`. */
  function SeenAll(normpath: string -> string, resources: seq<Resource>): set<string>
    decreases |resources|
  {
    if |resources| == 0 then {}
    else SeenAll(normpath, resources[..|resources| - 1]) + SeenFiles(normpath, resources[|resources| - 1].files)
  }

  /** Entries of `prior` stay as they are in `later`. */
  predicate Keeps(prior: map<string, (string, string)>, later: map<string, (string, string)>) {
    forall k :: k in prior ==> k in later && later[k] == prior[k]
  }

  /**
   * From `st` to `st'` the paths `seen` become processed, what was
   * processed keeps its result, a transfer is added per new path and
   * nothing is hardlinked.
   */
  predicate Advances(st: Extracted, st': Extracted, seen: set<string>) {
    && st'.processed.Keys == st.processed.Keys + seen
    && Keeps(st.processed, st'.processed)
    && |st'.transfers| - |st'.processed| == |st.transfers| - |st.processed|
    && st'.hardlinks == st.hardlinks
  }

  lemma AdvancesTrans(a: Extracted, b: Extracted, c: Extracted, s1: set<string>, s2: set<string>)
    requires Advances(a, b, s1) && Advances(b, c, s2)
    ensures Advances(a, c, s1 + s2)
  { }

  /** One file: its path becomes processed, and a transfer is added exactly when the path is new. */
  lemma FileStepOnce(ctx: Context, st: Extracted, resource: Resource, file: string)
    requires FileStep(ctx, st, resource, file).Ok?
    ensures Advances(st, FileStep(ctx, st, resource, file).value.0, {ctx.normpath(file)})
    ensures FileStep(ctx, st, resource, file).value.1.files == resource.files
    ensures FileStep(ctx, st, resource, file).value.1.colorSpace == resource.colorSpace
  { }

  /** A file whose normalised path was processed before adds nothing and passes its earlier result colour space on. */
  lemma FileReused(ctx: Context, st: Extracted, resource: Resource, file: string)
    requires ctx.normpath(file) in st.processed
    ensures FileStep(ctx, st, resource, file).Ok?
    ensures FileStep(ctx, st, resource, file).value.0 == st
    ensures FileStep(ctx, st, resource, file).value.1.resultColorSpace == Some(st.processed[ctx.normpath(file)].1)
  { }

  /** The files of one resource, by induction on them. */
  lemma {:induction false} FilesStepOnce(ctx: Context, st: Extracted, resource: Resource, files: seq<string>)
    requires FilesStep(ctx, st, resource, files).Ok?
    ensures Advances(st, FilesStep(ctx, st, resource, files).value.0, SeenFiles(ctx.normpath, files))
    ensures FilesStep(ctx, st, resource, files).value.1.files == resource.files
    ensures FilesStep(ctx, st, resource, files).value.1.colorSpace == resource.colorSpace
    decreases |files|
  {
    if |files| > 0 {
      var init := files[..|files| - 1];
      var last := files[|files| - 1];
      FilesStepOnce(ctx, st, resource, init);
      var prefix := FilesStep(ctx, st, resource, init).value;
      assert FilesStep(ctx, st, resource, files) == FileStep(ctx, prefix.0, prefix.1, last);
      FileStepOnce(ctx, prefix.0, prefix.1, last);
      AdvancesTrans(st, prefix.0, FilesStep(ctx, st, resource, files).value.0,
                    SeenFiles(ctx.normpath, init), {ctx.normpath(last)});
    }
  }

  /** A resource's remapping leaves the processed files and transfers alone. */
  lemma ResourceStepOnce(ctx: Context, st: Extracted, resource: Resource)
    requires ResourceStep(ctx, st, resource).Ok?
    ensures Advances(st, ResourceStep(ctx, st, resource).value.0, SeenFiles(ctx.normpath, resource.files))
  {
    FilesStepOnce(ctx, st, resource, resource.files);
  }

  /**
   * `process_resources` handles each normalised file path once: the
   * processed paths are exactly those of all the resources' files, there is
   * one transfer per processed path, and nothing is hardlinked.
   */
  lemma {:induction false} ExtractionOnce(ctx: Context, resources: seq<Resource>)
    requires Extraction(ctx, resources).Ok?
    ensures Advances(Start, Extraction(ctx, resources).value.0, SeenAll(ctx.normpath, resources))
    ensures |Extraction(ctx, resources).value.0.transfers| == |Extraction(ctx, resources).value.0.processed|
    ensures Extraction(ctx, resources).value.0.hardlinks == []
    ensures |Extraction(ctx, resources).value.1| == |resources|
    decreases |resources|
  {
    if |resources| > 0 {
      var init := resources[..|resources| - 1];
      var last := resources[|resources| - 1];
      ExtractionOnce(ctx, init);
      var prefix := Extraction(ctx, init).value;
      ResourceStepOnce(ctx, prefix.0, last);
      AdvancesTrans(Start, prefix.0, Extraction(ctx, resources).value.0,
                    SeenAll(ctx.normpath, init), SeenFiles(ctx.normpath, last.files));
    }
  }

  /** What a file's processing produced is never redone: later resources keep every processed entry. */
  lemma {:induction false} ExtractionKeeps(ctx: Context, resources: seq<Resource>, k: nat)
    requires k <= |resources| && Extraction(ctx, resources).Ok?
    ensures Extraction(ctx, resources[..k]).Ok?
    ensures Keeps(Extraction(ctx, resources[..k]).value.0.processed, Extraction(ctx, resources).value.0.processed)
    decreases |resources|
  {
    if k == |resources| {
      FullPrefix(resources);
    } else {
      var init := resources[..|resources| - 1];
      assert init[..k] == resources[..k];
      ExtractionKeeps(ctx, init, k);
      ResourceStepOnce(ctx, Extraction(ctx, init).value.0, resources[|resources| - 1]);
    }
  }

  // ---------------------------------------------------------------------
  // get_maya_scene_type

  /** The scene type of the first family with an entry in the mapping; `current` when none has one. */
  function FirstMapped(families: seq<string>, extMapping: map<string, string>, current: string): string
    decreases |families|
  {
    if |families| == 0 then current
    else if families[0] in extMapping then extMapping[families[0]]
    else FirstMapped(families[1..], extMapping, current)
  }

  /** FirstMapped picks the first mapped family, or keeps the current type when no family is mapped. */
  lemma {:induction false} FirstMappedIsFirst(families: seq<string>, extMapping: map<string, string>, current: string)
    ensures (forall k :: 0 <= k < |families| ==> families[k] !in extMapping) ==> FirstMapped(families, extMapping, current) == current
    ensures (exists k :: 0 <= k < |families| && families[k] in extMapping) ==>
      exists k :: 0 <= k < |families| && families[k] in extMapping
        && FirstMapped(families, extMapping, current) == extMapping[families[k]]
        && forall j :: 0 <= j < k ==> families[j] !in extMapping
    decreases |families|
  {
    if |families| > 0 {
      FirstMappedIsFirst(families[1..], extMapping, current);
      if families[0] !in extMapping {
        if exists k :: 0 <= k < |families| && families[k] in extMapping {
          var k :| 0 <= k < |families| && families[k] in extMapping;
          assert families[1..][k - 1] == families[k];
          var k' :| 0 <= k' < |families| - 1 && families[1..][k'] in extMapping
            && FirstMapped(families[1..], extMapping, current) == extMapping[families[1..][k']]
            && forall j :: 0 <= j < k' ==> families[1..][j] !in extMapping;
          assert forall j :: 0 < j <= k' ==> families[j] == families[1..][j - 1];
          assert families[k' + 1] in extMapping;
        }
      }
    }
  }

  function MayaSceneKind(sceneType: string): (r: string)
    ensures r == "mayaAscii" <==> sceneType == "ma"
  {
    if sceneType == "ma" then "mayaAscii" else "mayaBinary"
  }

  /** The look extractor plugin: its families and the scene type it updates from the settings. */
  class LookExtractor {
    const families: seq<string>
    /** `meta.render.` for the model render sets extractor, None for the look extractor. */
    const sceneTypePrefix: Option<string>
    var sceneType: string

    constructor(families: seq<string>, sceneTypePrefix: Option<string>)
      ensures this.families == families && this.sceneTypePrefix == sceneTypePrefix && sceneType == "ma"
    {
      this.families := families;
      this.sceneTypePrefix := sceneTypePrefix;
      sceneType := "ma";
    }

    /**
     * `get_maya_scene_type`: the scene type becomes that of the first family
     * in the extension mapping (later items of the mapping win); the Maya
     * file type is decided before the model render sets prefix is added.
     */
    method GetMayaSceneType(extMapping: Entries<string>) returns (r: string)
      modifies this
      ensures var chosen := FirstMapped(families, ToMap(extMapping), old(sceneType));
        && r == MayaSceneKind(chosen)
        && sceneType == (if sceneTypePrefix.Some? then sceneTypePrefix.value + chosen else chosen)
    {
      var mapping := ToMap(extMapping);
      ghost var start := sceneType;
      if |mapping| > 0 {
        var i := 0;
        while i < |families|
          invariant 0 <= i <= |families|
          invariant sceneType == start
          invariant FirstMapped(families[i..], mapping, start) == FirstMapped(families, mapping, start)
        {
          assert families[i..][1..] == families[i + 1..];
          if families[i] in mapping {
            sceneType := mapping[families[i]];
            break;
          }
          i := i + 1;
        }
        if sceneType == start {
          assert FirstMapped(families, mapping, start) == start by {
            if i == |families| {
            } else {
              assert mapping[families[i]] == start;
            }
          }
        }
      } else {
        EmptyMapNone(families, mapping, start);
      }
      r := MayaSceneKind(sceneType);
      if sceneTypePrefix.Some? {
        sceneType := sceneTypePrefix.value + sceneType;
      }
    }
  }

  lemma EmptyMapNone(families: seq<string>, mapping: map<string, string>, current: string)
    requires |mapping| == 0
    ensures FirstMapped(families, mapping, current) == current
  {
    FirstMappedIsFirst(families, mapping, current);
  }

  // ---------------------------------------------------------------------
  // MakeTX.apply_settings

  /** One item of the `maketx_arguments` setting. */
  datatype ArgData = ArgData(argument: string, parameters: seq<string>)

  /** The extra `maketx` arguments: each item's argument and its parameters in order, items with an empty argument skipped. */
  function ExtraArgs(settings: seq<ArgData>): seq<string>
    decreases |settings|
  {
    if |settings| == 0 then []
    else
      var d := settings[|settings| - 1];
      ExtraArgs(settings[..|settings| - 1]) + (if d.argument == "" then [] else [d.argument] + d.parameters)
  }

  /** The arguments of two lists of settings are those of each, in order. */
  lemma {:induction false} ExtraArgsConcat(a: seq<ArgData>, b: seq<ArgData>)
    ensures ExtraArgs(a + b) == ExtraArgs(a) + ExtraArgs(b)
    decreases |b|
  {
    if |b| == 0 {
      assert a + b == a;
    } else {
      LastOfConcat(a, b);
      ExtraArgsConcat(a, b[..|b| - 1]);
    }
  }

  /** A single item gives its argument and parameters, or nothing when the argument is empty. */
  lemma ExtraArgsOne(d: ArgData)
    ensures ExtraArgs([d]) == if d.argument == "" then [] else [d.argument] + d.parameters
  {
    assert [d][..0] == [];
  }

  /** The `maketx` texture processor and the extra arguments it passes. */
  class MakeTX {
    var extraArgs: seq<string>

    constructor()
      ensures extraArgs == []
    {
      extraArgs := [];
    }

    /** `apply_settings`; `maketxArguments` is None when the setting (or the ExtractLook settings) is absent. */
    method ApplySettings(maketxArguments: Option<seq<ArgData>>)
      modifies this
      ensures extraArgs == ExtraArgs(if maketxArguments.Some? then maketxArguments.value else [])
    {
      var settings := if maketxArguments.Some? then maketxArguments.value else [];
      var args: seq<string> := [];
      var i := 0;
      while i < |settings|
        invariant 0 <= i <= |settings|
        invariant args == ExtraArgs(settings[..i])
      {
        TakeTake(settings, i);
        var d := settings[i];
        if d.argument != "" {
          args := args + [d.argument] + d.parameters;
        }
        i := i + 1;
      }
      FullPrefix(settings);
      extraArgs := args;
    }
  }
}

/**
 * The Maya USD extractor's option handling: the declared option types and
 * defaults, the typed override of options from instance data and publish
 * attributes, the attribute lists, the Maya USD version gate and the
 * default-prim workaround.  The installed plugin version, the export roots
 * found by `cmds.ls` and the export itself are inputs or left out.
 */
module ExtractMayaUsd {
  import opened Strs
  import opened PyData
  import PyConv

  // ---------------------------------------------------------------------
  // parse_version and tuple comparison

  /** `int` of every part, or None when one part is not an integer. */
  function ParseInts(parts: seq<string>): (r: Option<seq<int>>)
    ensures r.Some? ==> |r.value| == |parts|
    decreases |parts|
  {
    if |parts| == 0 then Some([])
    else
      match (ParseInts(parts[..|parts| - 1]), PyConv.ParseInt(parts[|parts| - 1]))
      case (Some(init), Some(n)) => Some(init + [n])
      case _ => None
  }

  /** `parse_version`: the `.`-separated integers; None where Python's `int` raises ValueError. */
  function ParseVersion(text: string): Option<seq<int>> {
    ParseInts(Split(text, '.'))
  }

  /** The text of a version: its numbers joined by dots. */
  function VersionText(v: seq<nat>): string {
    Join(NumberTexts(v), ".")
  }

  function NumberTexts(v: seq<nat>): (r: seq<string>)
    ensures |r| == |v| && forall i :: 0 <= i < |v| ==> r[i] == NatToStr(v[i])
  {
    seq(|v|, i requires 0 <= i < |v| => NatToStr(v[i]))
  }

  lemma {:induction false} ParseIntsTexts(v: seq<nat>)
    ensures ParseInts(NumberTexts(v)) == Some(v)
    decreases |v|
  {
    if |v| > 0 {
      var init, n := v[..|v| - 1], v[|v| - 1];
      NumberTextsSnoc(v);
      ParseIntsTexts(init);
      PyConv.ParseIntStr(n);
      ParseIntsSnoc(NumberTexts(init), NatToStr(n), init, n);
    }
  }

  lemma NumberTextsSnoc(v: seq<nat>)
    requires |v| > 0
    ensures NumberTexts(v) == NumberTexts(v[..|v| - 1]) + [NatToStr(v[|v| - 1])]
    ensures v[..|v| - 1] + [v[|v| - 1]] == v
  { }

  lemma ParseIntsSnoc(parts: seq<string>, t: string, init: seq<int>, n: int)
    requires ParseInts(parts) == Some(init) && PyConv.ParseInt(t) == Some(n)
    ensures ParseInts(parts + [t]) == Some(init + [n])
  {
    assert (parts + [t])[..|parts|] == parts;
  }

  /** `parse_version` reads back every version written as dotted numbers. */
  lemma ParseVersionText(v: seq<nat>)
    requires |v| >= 1
    ensures ParseVersion(VersionText(v)) == Some(v)
  {
    var parts := NumberTexts(v);
    forall i | 0 <= i < |parts| ensures '.' !in parts[i] {
      assert forall j :: 0 <= j < |parts[i]| ==> IsDigit(parts[i][j]);
    }
    SplitJoin(parts, '.');
    ParseIntsTexts(v);
  }

  /** The docstring's example: `"0.26.0"` is `(0, 26, 0)`. */
  lemma ParseVersionExample()
    ensures ParseVersion(NatToStr(0) + "." + (NatToStr(26) + "." + NatToStr(0))) == Some([0, 26, 0])
  {
    var v: seq<nat> := [0, 26, 0];
    ParseVersionText(v);
    var p := NumberTexts(v);
    assert p[1..] == [NatToStr(26), NatToStr(0)];
    assert p[1..][1..] == [NatToStr(0)];
  }

  /** Python's `<` on tuples of ints: the first differing item decides, a proper prefix is smaller. */
  predicate VersionLess(a: seq<int>, b: seq<int>)
    decreases |a|
  {
    if |b| == 0 then false
    else if |a| == 0 then true
    else a[0] < b[0] || (a[0] == b[0] && VersionLess(a[1..], b[1..]))
  }

  lemma {:induction false} VersionLessIrreflexive(a: seq<int>)
    ensures !VersionLess(a, a)
    decreases |a|
  {
    if |a| > 0 {
      VersionLessIrreflexive(a[1..]);
    }
  }

  lemma {:induction false} VersionLessTransitive(a: seq<int>, b: seq<int>, c: seq<int>)
    requires VersionLess(a, b) && VersionLess(b, c)
    ensures VersionLess(a, c)
    decreases |a|
  {
    if |a| > 0 && a[0] == b[0] && b[0] == c[0] {
      VersionLessTransitive(a[1..], b[1..], c[1..]);
    }
  }

  /** Any two different versions are ordered one way or the other. */
  lemma {:induction false} VersionLessTotal(a: seq<int>, b: seq<int>)
    requires a != b
    ensures VersionLess(a, b) || VersionLess(b, a)
    decreases |a|
  {
    if |a| > 0 && |b| > 0 && a[0] == b[0] {
      assert a == [a[0]] + a[1..] && b == [b[0]] + b[1..];
      VersionLessTotal(a[1..], b[1..]);
    }
  }

  // ---------------------------------------------------------------------
  // The declared options

  /** The type an option is declared with: one type, or a tuple `(type, None)`. */
  datatype PyType = TList | TStr | TBool | TInt | TFloat
  datatype OptionType = Single(t: PyType) | OrNone(t: PyType)

  /** `isinstance(v, t)` for the declared types: a tuple is not a list, a bool is an int. */
  predicate HasType(v: Value, t: PyType) {
    match t
    case TList => v.VList?
    case TStr => v.VStr?
    case TBool => v.VBool?
    case TInt => v.VInt? || v.VBool?
    case TFloat => v.VFloat?
  }

  /** The overridable options and their declared types. */
  const OptionTypes: map<string, OptionType> := map[
    "chaser" := OrNone(TList),
    "chaserArgs" := OrNone(TList),
    "defaultUSDFormat" := Single(TStr),
    "defaultMeshScheme" := Single(TStr),
    "stripNamespaces" := Single(TBool),
    "mergeTransformAndShape" := Single(TBool),
    "exportDisplayColor" := Single(TBool),
    "exportColorSets" := Single(TBool),
    "exportInstances" := Single(TBool),
    "exportUVs" := Single(TBool),
    "exportVisibility" := Single(TBool),
    "exportComponentTags" := Single(TBool),
    "exportRefsAsInstanceable" := Single(TBool),
    "eulerFilter" := Single(TBool),
    "renderableOnly" := Single(TBool),
    "convertMaterialsTo" := Single(TStr),
    "shadingMode" := OrNone(TStr),
    "jobContext" := OrNone(TList),
    "filterTypes" := OrNone(TList),
    "staticSingleSample" := Single(TBool),
    "worldspace" := Single(TBool)]

  /** The default export options. */
  const DefaultOptions: map<string, Value> := map[
    "chaser" := VNone,
    "chaserArgs" := VNone,
    "defaultUSDFormat" := VStr("usdc"),
    "defaultMeshScheme" := VStr("catmullClark"),
    "stripNamespaces" := VBool(true),
    "mergeTransformAndShape" := VBool(true),
    "exportDisplayColor" := VBool(false),
    "exportColorSets" := VBool(true),
    "exportInstances" := VBool(true),
    "exportUVs" := VBool(true),
    "exportVisibility" := VBool(true),
    "exportComponentTags" := VBool(false),
    "exportRefsAsInstanceable" := VBool(false),
    "eulerFilter" := VBool(true),
    "renderableOnly" := VBool(false),
    "shadingMode" := VStr("none"),
    "convertMaterialsTo" := VStr("none"),
    "jobContext" := VNone,
    "filterTypes" := VNone,
    "staticSingleSample" := VBool(true),
    "worldspace" := VBool(true)]

  lemma PrimsUndeclared()
    ensures "defaultPrim" !in OptionTypes && "rootPrim" !in OptionTypes && "exportRoots" !in OptionTypes
  { }

  lemma DeclaredTypes()
    ensures "stripNamespaces" in OptionTypes && OptionTypes["stripNamespaces"] == Single(TBool)
    ensures "shadingMode" in OptionTypes && OptionTypes["shadingMode"] == OrNone(TStr)
    ensures "chaser" in OptionTypes && OptionTypes["chaser"] == OrNone(TList)
  { }

  /** Every option has a default, and every default a declared type. */
  lemma DefaultsDeclared()
    ensures DefaultOptions.Keys == OptionTypes.Keys
  { }

  /**
   * The type test as written: `isinstance(v, (t, None))` answers True when
   * `v` has type `t` and raises TypeError otherwise, because None is not a
   * type.
   */
  function TypeCheckAsWritten(decl: OptionType, v: Value): Result<bool> {
    match decl
    case Single(t) => Ok(HasType(v, t))
    case OrNone(t) =>
      if HasType(v, t) then Ok(true)
      else Err("TypeError: isinstance() arg 2 must be a type, a tuple of types, or a union")
  }

  /** The type test meant by `(t, None)`: `t` or None. */
  function TypeCheck(decl: OptionType, v: Value): (r: Result<bool>)
    ensures r.Ok?
    ensures r.value <==> HasType(v, decl.t) || (decl.OrNone? && v == VNone)
  {
    match decl
    case Single(t) => Ok(HasType(v, t))
    case OrNone(t) => Ok(HasType(v, t) || v == VNone)
  }

  function Check(decl: OptionType, v: Value, asWritten: bool): Result<bool> {
    if asWritten then TypeCheckAsWritten(decl, v) else TypeCheck(decl, v)
  }

  // ---------------------------------------------------------------------
  // parse_overrides

  // The declared types are a parameter: `options` is a property that the
  // extractors deriving from this one override.

  /** Some declared override makes the type test raise. */
  predicate Raises(types: map<string, OptionType>, overrides: map<string, Value>, asWritten: bool) {
    exists k :: k in overrides && k in types && Check(types[k], overrides[k], asWritten).Err?
  }

  /** The override is declared and passes its type test. */
  predicate Accepted(types: map<string, OptionType>, overrides: map<string, Value>, k: string, asWritten: bool)
    requires k in overrides
  {
    k in types && Check(types[k], overrides[k], asWritten) == Ok(true)
  }

  /** The declared overrides that pass their type test. */
  function AcceptedKeys(types: map<string, OptionType>, overrides: map<string, Value>, asWritten: bool): set<string> {
    set k | k in overrides && Accepted(types, overrides, k, asWritten)
  }

  /** The options with the accepted overrides among `done` copied in. */
  function Partial(types: map<string, OptionType>, overrides: map<string, Value>, options: map<string, Value>,
                   done: set<string>, asWritten: bool): map<string, Value>
  {
    var copied := AcceptedKeys(types, overrides, asWritten) * done;
    map k | k in options.Keys + copied :: if k in copied then overrides[k] else options[k]
  }

  /** The options with every accepted override copied in. */
  function Overridden(types: map<string, OptionType>, overrides: map<string, Value>, options: map<string, Value>,
                      asWritten: bool): map<string, Value>
  {
    Partial(types, overrides, options, overrides.Keys, asWritten)
  }

  /** Looking at one more override copies it exactly when it is accepted. */
  lemma PartialStep(types: map<string, OptionType>, overrides: map<string, Value>, options: map<string, Value>,
                    done: set<string>, key: string, asWritten: bool)
    requires key in overrides
    ensures Partial(types, overrides, options, done + {key}, asWritten)
         == if Accepted(types, overrides, key, asWritten)
            then Partial(types, overrides, options, done, asWritten)[key := overrides[key]]
            else Partial(types, overrides, options, done, asWritten)
  { }

  /** The options without the None-valued ones. */
  function DropNone(options: map<string, Value>): (r: map<string, Value>)
    ensures forall k :: k in r <==> k in options && options[k] != VNone
    ensures forall k :: k in r ==> r[k] == options[k]
  {
    map k | k in options && options[k] != VNone :: options[k]
  }

  const TypeErrorText := "TypeError: isinstance() arg 2 must be a type, a tuple of types, or a union"

  function ParseOverridesSpec(types: map<string, OptionType>, overrides: map<string, Value>, options: map<string, Value>,
                              asWritten: bool): Result<map<string, Value>>
  {
    if Raises(types, overrides, asWritten) then Err(TypeErrorText)
    else Ok(DropNone(Overridden(types, overrides, options, asWritten)))
  }

  /**
   * `parse_overrides` over the overrides in their dict order: declared,
   * well-typed values replace the option, then every None-valued option
   * is removed.
   */
  method ParseOverrides(types: map<string, OptionType>, overrides: map<string, Value>, order: seq<string>,
                        options: map<string, Value>, asWritten: bool)
    returns (r: Result<map<string, Value>>)
    requires forall k :: k in overrides <==> k in order
    ensures r == ParseOverridesSpec(types, overrides, options, asWritten)
  {
    r := CopyOverrides(types, overrides, order, options, asWritten);
    if r.Ok? {
      var kept := DropNoneValues(r.value);
      r := Ok(kept);
    }
  }

  /** The first loop of `parse_overrides`: copy each declared, well-typed override. */
  method CopyOverrides(types: map<string, OptionType>, overrides: map<string, Value>, order: seq<string>,
                       options: map<string, Value>, asWritten: bool)
    returns (r: Result<map<string, Value>>)
    requires forall k :: k in overrides <==> k in order
    ensures r == if Raises(types, overrides, asWritten) then Err(TypeErrorText)
                 else Ok(Overridden(types, overrides, options, asWritten))
  {
    var opts := options;
    ghost var done: set<string> := {};
    var i := 0;
    while i < |order|
      invariant 0 <= i <= |order|
      invariant forall k :: k in done <==> k in order[..i]
      invariant opts == Partial(types, overrides, options, done, asWritten)
      invariant forall j :: 0 <= j < i && order[j] in types ==> Check(types[order[j]], overrides[order[j]], asWritten).Ok?
    {
      var key := order[i];
      assert order[..i + 1] == order[..i] + [key];
      PartialStep(types, overrides, options, done, key, asWritten);
      if key in types {
        var ok := Check(types[key], overrides[key], asWritten);
        if ok.Err? {
          return Err(TypeErrorText);
        }
        if ok.value {
          opts := opts[key := overrides[key]];
        }
      }
      done := done + {key};
      i := i + 1;
    }
    assert order[..|order|] == order;
    assert done == overrides.Keys;
    assert !Raises(types, overrides, asWritten) by {
      forall k | k in overrides && k in types ensures Check(types[k], overrides[k], asWritten).Ok? {
        var j :| 0 <= j < |order| && order[j] == k;
      }
    }
    r := Ok(opts);
  }

  /** The second loop of `parse_overrides`: delete every None-valued option. */
  method DropNoneValues(options: map<string, Value>) returns (kept: map<string, Value>)
    ensures kept == DropNone(options)
  {
    var pending := options.Keys;
    kept := options;
    while pending != {}
      invariant pending <= options.Keys
      invariant forall k :: k in kept <==> k in options && (k in pending || options[k] != VNone)
      invariant forall k :: k in kept ==> kept[k] == options[k]
      decreases pending
    {
      var key :| key in pending;
      if options[key] == VNone {
        kept := kept - {key};
      }
      pending := pending - {key};
    }
  }

  /** What `parse_overrides` keeps: no None values, and every key an option or a declared override. */
  lemma ParsedShape(types: map<string, OptionType>, overrides: map<string, Value>, options: map<string, Value>,
                    asWritten: bool, k: string)
    requires ParseOverridesSpec(types, overrides, options, asWritten).Ok?
    ensures var r := ParseOverridesSpec(types, overrides, options, asWritten).value;
      && (k in r ==> r[k] != VNone && (k in options || k in types))
      && (k in r <==> (if k in overrides && Accepted(types, overrides, k, asWritten) then overrides[k]
                       else if k in options then options[k] else VNone) != VNone)
  { }

  /** An override copied in has its declared type; an undeclared key never overrides. */
  lemma ParsedTyped(types: map<string, OptionType>, overrides: map<string, Value>, options: map<string, Value>, k: string)
    requires ParseOverridesSpec(types, overrides, options, false).Ok?
    requires k in ParseOverridesSpec(types, overrides, options, false).value
    ensures var v := ParseOverridesSpec(types, overrides, options, false).value[k];
      || (k in types && k in overrides && v == overrides[k] && HasType(v, types[k].t))
      || (k in options && v == options[k])
  { }

  /** The corrected type test never raises, so `parse_overrides` always answers. */
  lemma ParseNeverRaises(types: map<string, OptionType>, overrides: map<string, Value>, options: map<string, Value>)
    ensures ParseOverridesSpec(types, overrides, options, false).Ok?
  { }

  /**
   * As written, an optional key with a value of another type raises
   * instead of being skipped: `{"shadingMode": 1}` and `{"chaser": None}`
   * both end the extraction with a TypeError.
   */
  lemma OptionalOverrideRaises(options: map<string, Value>)
    ensures ParseOverridesSpec(OptionTypes, map["shadingMode" := VInt(1)], options, true).Err?
    ensures ParseOverridesSpec(OptionTypes, map["chaser" := VNone], options, true).Err?
    ensures ParseOverridesSpec(OptionTypes, map["chaser" := VNone], options, false).Ok?
  {
    DeclaredTypes();
    var m1 := map["shadingMode" := VInt(1)];
    assert "shadingMode" in m1 && Check(OptionTypes["shadingMode"], m1["shadingMode"], true).Err?;
    var m2 := map["chaser" := VNone];
    assert "chaser" in m2 && Check(OptionTypes["chaser"], m2["chaser"], true).Err?;
    ParseNeverRaises(OptionTypes, m2, options);
  }

  /**
   * The shape `process` relies on after both overrides: every key declared,
   * no None value, and `stripNamespaces` a bool.
   */
  predicate OptionsShape(types: map<string, OptionType>, options: map<string, Value>) {
    Declared(types, options) && forall k :: k in options ==> options[k] != VNone
  }

  /** Every key declared and `stripNamespaces` a bool. */
  predicate Declared(types: map<string, OptionType>, options: map<string, Value>) {
    && (forall k :: k in options ==> k in types)
    && "stripNamespaces" in options && options["stripNamespaces"].VBool?
  }

  /** The defaults are declared, with `stripNamespaces` on. */
  lemma DefaultsShape()
    ensures Declared(OptionTypes, DefaultOptions)
    ensures DefaultOptions["stripNamespaces"] == VBool(true)
  {
    DefaultsDeclared();
  }

  /**
   * `parse_overrides` gives that shape when `stripNamespaces` is declared a
   * bool; undeclared keys such as `defaultPrim` and `rootPrim` never appear.
   */
  lemma ParseKeepsShape(types: map<string, OptionType>, overrides: map<string, Value>, options: map<string, Value>, k: string)
    requires Declared(types, options)
    requires "stripNamespaces" in types && types["stripNamespaces"] == Single(TBool)
    ensures OptionsShape(types, ParseOverridesSpec(types, overrides, options, false).value)
    ensures k !in types ==> k !in ParseOverridesSpec(types, overrides, options, false).value
  { }

  /** Both overrides of `process`, from the defaults, give options of that shape, without the keys `process` adds or tests. */
  lemma ProcessOptionsShape(instanceData: map<string, Value>, attrValues: map<string, Value>)
    ensures var first := ParseOverridesSpec(OptionTypes, instanceData, DefaultOptions, false).value;
      var second := ParseOverridesSpec(OptionTypes, attrValues, first, false).value;
      && OptionsShape(OptionTypes, second)
      && "defaultPrim" !in second && "rootPrim" !in second && "exportRoots" !in second
  {
    DeclaredTypes();
    PrimsUndeclared();
    DefaultsShape();
    ParseKeepsShape(OptionTypes, instanceData, DefaultOptions, "");
    var first := ParseOverridesSpec(OptionTypes, instanceData, DefaultOptions, false).value;
    ParseKeepsShape(OptionTypes, attrValues, first, "defaultPrim");
    ParseKeepsShape(OptionTypes, attrValues, first, "rootPrim");
    ParseKeepsShape(OptionTypes, attrValues, first, "exportRoots");
  }

  // ---------------------------------------------------------------------
  // The attribute lists

  /** `parse_attr_str`: the comma-separated items, stripped, empty ones dropped. */
  function ParseAttrStr(text: string): (r: seq<string>)
    ensures forall i :: 0 <= i < |r| ==> CleanItem(r[i]) && ',' !in r[i]
  {
    SplitCleanFree(text, ',');
    SplitClean(text, ',')
  }

  /** Clean, comma-free items survive joining with commas and parsing back. */
  lemma ParseAttrStrJoin(items: seq<string>)
    requires forall i :: 0 <= i < |items| ==> CleanItem(items[i]) && ',' !in items[i]
    ensures ParseAttrStr(Join(items, [','])) == items
  {
    SplitCleanJoin(items, ',');
  }

  /** The exported attributes: the instance's `attr` items, its user-defined attributes, then `cbId`. */
  function UsdAttrs(data: map<string, Value>): (r: Result<seq<Value>>)
    ensures r.Ok? ==> |r.value| > 0 && r.value[|r.value| - 1] == VStr("cbId")
  {
    var text := if "attr" in data then data["attr"] else VStr("");
    var user := Items(if "userDefinedAttributes" in data then data["userDefinedAttributes"] else VList([]));
    if !text.VStr? then Err("AttributeError: object has no attribute 'split'")
    else if user.None? then Err("TypeError: object is not iterable")
    else Ok(StrValues(ParseAttrStr(text.s)) + user.value + [VStr("cbId")])
  }

  // ---------------------------------------------------------------------
  // The Maya USD version gate

  /** The options unknown to older Maya USD releases, with the first release that knows each. */
  const MinimalVersions: seq<(string, seq<int>)> := [
    ("exportComponentTags", [0, 14, 0]), ("jobContext", [0, 15, 0]), ("worldspace", [0, 21, 0])]

  /** The options the installed version does not support. */
  function Unsupported(version: seq<int>): set<string> {
    set i | 0 <= i < |MinimalVersions| && VersionLess(version, MinimalVersions[i].1) :: MinimalVersions[i].0
  }

  /** Removes every option the installed Maya USD is too old for. */
  method DropUnsupported(options: map<string, Value>, version: seq<int>) returns (r: map<string, Value>)
    ensures r == options - Unsupported(version)
  {
    r := options;
    for i := 0 to |MinimalVersions|
      invariant r == options - set j | 0 <= j < i && VersionLess(version, MinimalVersions[j].1) :: MinimalVersions[j].0
    {
      var (key, minimal) := MinimalVersions[i];
      if key in r && VersionLess(version, minimal) {
        r := r - {key};
      }
    }
  }

  /** A version at least 0.21.0 keeps every option. */
  lemma RecentKeepsAll(version: seq<int>)
    requires !VersionLess(version, [0, 21, 0])
    ensures Unsupported(version) == {}
  {
    forall i | 0 <= i < |MinimalVersions|
      ensures !VersionLess(version, MinimalVersions[i].1)
    {
      if VersionLess(version, MinimalVersions[i].1) {
        if i < 2 {
          assert VersionLess(MinimalVersions[i].1, [0, 21, 0]);
          VersionLessTransitive(version, MinimalVersions[i].1, [0, 21, 0]);
        }
      }
    }
  }

  /** An older version drops at least what a newer one drops. */
  lemma UnsupportedMonotone(older: seq<int>, newer: seq<int>)
    requires VersionLess(older, newer)
    ensures Unsupported(newer) <= Unsupported(older)
  {
    forall k | k in Unsupported(newer) ensures k in Unsupported(older) {
      var i :| 0 <= i < |MinimalVersions| && VersionLess(newer, MinimalVersions[i].1) && MinimalVersions[i].0 == k;
      VersionLessTransitive(older, newer, MinimalVersions[i].1);
    }
  }

  /** Maya 2022.3's Maya USD 0.13.0 loses all three options. */
  lemma OldestDropsAll()
    ensures Unsupported([0, 13, 0]) == {"exportComponentTags", "jobContext", "worldspace"}
  {
    assert VersionLess([0, 13, 0], MinimalVersions[0].1);
    assert VersionLess([0, 13, 0], MinimalVersions[1].1);
    assert VersionLess([0, 13, 0], MinimalVersions[2].1);
  }

  // ---------------------------------------------------------------------
  // The export options of `process`

  /** The default prim for an export root: its leaf name, without namespace when namespaces are stripped. */
  function PrimName(root: string, stripNamespaces: bool): (r: string)
    ensures '|' !in r && (stripNamespaces ==> ':' !in r) && EndsWith(root, r)
  {
    var leaf := AfterLast(root, '|');
    AfterLastFree(root, '|');
    if stripNamespaces then
      AfterLastFree(leaf, ':');
      EndsWithTrans(root, leaf, AfterLast(leaf, ':'));
      AfterLast(leaf, ':')
    else leaf
  }

  lemma EndsWithTrans(a: string, b: string, c: string)
    requires EndsWith(a, b) && EndsWith(b, c)
    ensures EndsWith(a, c)
  {
    assert a[|a| - |c|..] == b[|b| - |c|..];
  }

  /**
   * What `process` reads besides the parsed options: the instance data,
   * the members as `filter_members` returns them (empty for none), the
   * transforms among them, and the Maya USD version.
   */
  datatype UsdInputs = UsdInputs(
    data: map<string, Value>, members: seq<string>, roots: seq<string>, version: seq<int>)

  /** The frame range and stride when animation data is exported (the default). */
  function WithFrames(options: map<string, Value>, data: map<string, Value>): Result<map<string, Value>> {
    var start := if "frameStartHandle" in data then data["frameStartHandle"] else VInt(0);
    if !Truthy(if "exportAnimationData" in data then data["exportAnimationData"] else VBool(true)) then Ok(options)
    else if "frameEndHandle" !in data then Err("KeyError: 'frameEndHandle'")
    else
      Ok(options["frameRange" := VTuple([start, data["frameEndHandle"]])]
                ["frameStride" := if "step" in data then data["step"] else VFloat("1.0")])
  }

  /** The transforms among the members as roots (the default), or the selection. */
  function WithRoots(options: map<string, Value>, data: map<string, Value>, roots: seq<string>): map<string, Value> {
    if Truthy(if "exportRoots" in data then data["exportRoots"] else VBool(true))
    then options["exportRoots" := VList(StrValues(roots))]
    else options["selection" := VBool(true)]
  }

  /** The default prim is set only for Maya USD 0.30.0, only with roots, and only when no default or root prim is set. */
  predicate NeedsDefaultPrim(options: map<string, Value>, version: seq<int>) {
    && "exportRoots" in options && Truthy(options["exportRoots"])
    && "defaultPrim" !in options && "rootPrim" !in options
    && version == [0, 30, 0]
  }

  function WithDefaultPrim(options: map<string, Value>, version: seq<int>): Result<map<string, Value>> {
    if !NeedsDefaultPrim(options, version) then Ok(options)
    else
      var roots := options["exportRoots"];
      var first := if roots.VList? || roots.VTuple? then roots.items[0] else VNone;
      if !first.VStr? then Err("AttributeError: object has no attribute 'rsplit'")
      else if "stripNamespaces" !in options then Err("KeyError: 'stripNamespaces'")
      else Ok(options["defaultPrim" := VStr(PrimName(first.s, Truthy(options["stripNamespaces"])))])
  }

  /** The options before the default-prim workaround: frames, roots, the constraint filter, the version gate. */
  function Prepared(parsed: map<string, Value>, inputs: UsdInputs): Result<map<string, Value>> {
    match WithFrames(parsed, inputs.data)
    case Err(e) => Err(e)
    case Ok(framed) =>
      var rooted := WithRoots(framed, inputs.data, inputs.roots)["filterTypes" := VList([VStr("constraint")])];
      Ok(rooted - Unsupported(inputs.version))
  }

  /**
   * The options `mayaUSDExport` is called with, from the parsed options;
   * None when there are no members, where `process` logs an error and
   * returns without exporting.
   */
  function ExportOptions(parsed: map<string, Value>, inputs: UsdInputs): Result<Option<map<string, Value>>> {
    if |inputs.members| == 0 then Ok(None)
    else
      match Prepared(parsed, inputs)
      case Err(e) => Err(e)
      case Ok(prepared) =>
        match WithDefaultPrim(prepared, inputs.version)
        case Err(e) => Err(e)
        case Ok(options) => Ok(Some(options))
  }

  /** Without members nothing is exported and nothing raises; with members there is an export or an error. */
  lemma NoMembersNoExport(parsed: map<string, Value>, inputs: UsdInputs)
    ensures ExportOptions(parsed, inputs) == Ok(None) <==> |inputs.members| == 0
  { }

  /** `filterTypes` is always the constraint filter, whatever the overrides said. */
  lemma FilterTypesConstraint(parsed: map<string, Value>, inputs: UsdInputs)
    requires ExportOptions(parsed, inputs).Ok? && ExportOptions(parsed, inputs).value.Some?
    ensures var r := ExportOptions(parsed, inputs).value.value;
      "filterTypes" in r && r["filterTypes"] == VList([VStr("constraint")])
  {
    assert "filterTypes" !in Unsupported(inputs.version);
  }

  /** What the workaround reads from the prepared options. */
  lemma PreparedKeys(parsed: map<string, Value>, inputs: UsdInputs)
    requires "stripNamespaces" in parsed && parsed["stripNamespaces"].VBool?
    requires "defaultPrim" !in parsed && "rootPrim" !in parsed && "exportRoots" !in parsed
    requires Prepared(parsed, inputs).Ok?
    ensures var p := Prepared(parsed, inputs).value;
      && "stripNamespaces" in p && p["stripNamespaces"] == parsed["stripNamespaces"]
      && "defaultPrim" !in p && "rootPrim" !in p
      && ("exportRoots" in p <==> Truthy(if "exportRoots" in inputs.data then inputs.data["exportRoots"] else VBool(true)))
      && ("exportRoots" in p ==> p["exportRoots"] == VList(StrValues(inputs.roots)))
  {
    assert "stripNamespaces" !in Unsupported(inputs.version);
    assert "exportRoots" !in Unsupported(inputs.version);
  }

  /**
   * With options of the parsed shape, the default prim is set exactly for
   * Maya USD 0.30.0 exporting at least one root, and it is the first
   * root's prim name.
   */
  lemma DefaultPrimExactly(parsed: map<string, Value>, inputs: UsdInputs)
    requires "stripNamespaces" in parsed && parsed["stripNamespaces"].VBool?
    requires "defaultPrim" !in parsed && "rootPrim" !in parsed && "exportRoots" !in parsed
    requires ExportOptions(parsed, inputs).Ok? && ExportOptions(parsed, inputs).value.Some?
    ensures var r := ExportOptions(parsed, inputs).value.value;
      && ("defaultPrim" in r <==>
           inputs.version == [0, 30, 0] && |inputs.roots| > 0
           && Truthy(if "exportRoots" in inputs.data then inputs.data["exportRoots"] else VBool(true)))
      && ("defaultPrim" in r ==>
           r["defaultPrim"] == VStr(PrimName(inputs.roots[0], parsed["stripNamespaces"].b)))
  {
    PreparedKeys(parsed, inputs);
  }
}

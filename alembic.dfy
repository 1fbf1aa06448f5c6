/**
 * The option handling of `extract_alembic` (api/alembic.py): the keyword
 * arguments become an ordered options dict, the dict is checked against
 * the table of `AbcExport` flags (unknown keys dropped, wrong types
 * rejected, blank list entries pruned), `writeCreases` is renamed for
 * Maya 2018 and later, set callbacks are added, and the dict is written
 * out as the `AbcExport` job string.  The Maya calls (the timeline query,
 * the version query, the export itself) are parameters or left out.
 */
module Alembic {
  import opened Strs
  import opened PyData

  /** The types `ALEMBIC_ARGS` allows for a flag. */
  datatype Kind = ListKind | BoolKind | StrKind | FloatKind

  /** `ALEMBIC_ARGS`: every flag `AbcExport` takes, with its allowed type. */
  const AlembicArgs: map<string, Kind> := map[
    "attr" := ListKind, "attrPrefix" := ListKind, "autoSubd" := BoolKind,
    "dataFormat" := StrKind, "endFrame" := FloatKind, "eulerFilter" := BoolKind,
    "frameRange" := StrKind, "frameRelativeSample" := FloatKind,
    "melPerFrameCallback" := StrKind, "melPostJobCallback" := StrKind,
    "noNormals" := BoolKind, "preRoll" := BoolKind,
    "pythonPerFrameCallback" := StrKind, "pythonPostJobCallback" := StrKind,
    "renderableOnly" := BoolKind, "root" := ListKind, "selection" := BoolKind,
    "startFrame" := FloatKind, "step" := FloatKind, "stripNamespaces" := BoolKind,
    "userAttr" := ListKind, "userAttrPrefix" := ListKind, "uvWrite" := BoolKind,
    "uvsOnly" := BoolKind, "wholeFrameGeo" := BoolKind, "worldSpace" := BoolKind,
    "writeColorSets" := BoolKind, "writeCreases" := BoolKind, "writeFaceSets" := BoolKind,
    "writeUVSets" := BoolKind, "writeVisibility" := BoolKind
  ]

  /** `isinstance(value, ALEMBIC_ARGS[key])`: a bool is not a float, an int is not a float. */
  predicate HasKind(v: Value, k: Kind) {
    match k
    case ListKind => v.VList? || v.VTuple?
    case BoolKind => v.VBool?
    case StrKind => v.VStr?
    case FloatKind => v.VFloat?
  }

  // ---------------------------------------------------------------------
  // The arguments

  /** `frameRange` as passed: a string, or a list/tuple whose items are given by their `str()` text. */
  datatype FrameRangeArg = RangeText(text: string) | RangeItems(items: seq<string>)

  /**
   * The keyword arguments of `extract_alembic` that reach the job string.
   * A callback that is None is the empty string (both are falsy).
   */
  datatype Args = Args(
    file: string, attr: Value, attrPrefix: Value, dataFormat: Value, endFrame: Value,
    eulerFilter: Value, frameRange: FrameRangeArg, melPerFrameCallback: string,
    melPostJobCallback: string, noNormals: Value, preRoll: Value,
    pythonPerFrameCallback: string, pythonPostJobCallback: string, renderableOnly: Value,
    root: Value, selection: Value, startFrame: Value, step: Value, stripNamespaces: Value,
    userAttr: Value, userAttrPrefix: Value, uvsOnly: Value, uvWrite: Value,
    wholeFrameGeo: Value, worldSpace: Value, writeColorSets: Value, writeCreases: Value,
    writeFaceSets: Value, writeUVSets: Value, writeVisibility: Value)

  /** `file.replace('\\', '/')`. */
  function ForwardSlashes(s: string): (r: string)
    ensures |r| == |s| && '\\' !in r
    ensures forall i :: 0 <= i < |s| && s[i] != '\\' ==> r[i] == s[i]
  {
    seq(|s|, i requires 0 <= i < |s| => if s[i] == '\\' then '/' else s[i])
  }

  /** `value or []`. */
  function OrEmpty(v: Value): (r: Value)
    ensures !Truthy(v) ==> r == VList([])
    ensures Truthy(v) ==> r == v
  {
    if Truthy(v) then v else VList([])
  }

  /**
   * The `frameRange` option: an empty one falls back to `"start end"` from
   * the arguments or the timeline, which must both be floats; a list or
   * tuple must have two items, joined the same way.  A failed assertion is
   * `AssertionError`.
   */
  function FrameRangeText(r: FrameRangeArg, startFrame: Value, endFrame: Value, timeline: (Value, Value))
    : (res: Result<string>)
  {
    var empty := match r case RangeText(t) => t == "" case RangeItems(items) => items == [];
    if empty then
      var s := if startFrame.VNone? then timeline.0 else startFrame;
      var e := if endFrame.VNone? then timeline.1 else endFrame;
      if s.VFloat? && e.VFloat? then Ok(s.text + " " + e.text) else Err("AssertionError")
    else match r
      case RangeText(t) => Ok(t)
      case RangeItems(items) => if |items| == 2 then Ok(items[0] + " " + items[1]) else Err("AssertionError")
  }

  /** The `options` dict as first assembled, in its source order. */
  function InitialOptions(a: Args, frameRange: string): Entries<Value> {
    [("selection", a.selection), ("frameRange", VStr(frameRange)), ("eulerFilter", a.eulerFilter),
     ("noNormals", a.noNormals), ("preRoll", a.preRoll), ("root", OrEmpty(a.root)),
     ("renderableOnly", a.renderableOnly), ("uvWrite", a.uvWrite), ("uvsOnly", a.uvsOnly),
     ("writeColorSets", a.writeColorSets), ("writeFaceSets", a.writeFaceSets),
     ("wholeFrameGeo", a.wholeFrameGeo), ("worldSpace", a.worldSpace),
     ("writeVisibility", a.writeVisibility), ("writeUVSets", a.writeUVSets),
     ("writeCreases", a.writeCreases), ("dataFormat", a.dataFormat), ("step", a.step),
     ("attr", OrEmpty(a.attr)), ("attrPrefix", OrEmpty(a.attrPrefix)),
     ("userAttr", OrEmpty(a.userAttr)), ("userAttrPrefix", OrEmpty(a.userAttrPrefix)),
     ("stripNamespaces", a.stripNamespaces)]
  }

  /** The keys of `InitialOptions`, in order. */
  const InitialKeys: seq<string> :=
    ["selection", "frameRange", "eulerFilter", "noNormals", "preRoll", "root",
     "renderableOnly", "uvWrite", "uvsOnly", "writeColorSets", "writeFaceSets",
     "wholeFrameGeo", "worldSpace", "writeVisibility", "writeUVSets",
     "writeCreases", "dataFormat", "step", "attr", "attrPrefix",
     "userAttr", "userAttrPrefix", "stripNamespaces"]

  /** The assembled options have distinct keys. */
  lemma InitialUnique(a: Args, frameRange: string)
    ensures UniqueKeys(InitialOptions(a, frameRange))
  {
    var d := InitialOptions(a, frameRange);
    assert forall k :: 0 <= k < |d| ==> d[k].0 == InitialKeys[k];
    KeysDistinctFrom(0, 8);
    KeysDistinctFrom(8, 16);
    KeysDistinctFrom(16, 23);
  }

  lemma KeysDistinctFrom(lo: nat, hi: nat)
    requires (lo, hi) in {(0, 8), (8, 16), (16, 23)}
    ensures forall i, j :: lo <= i < hi && i < j < |InitialKeys| ==> InitialKeys[i] != InitialKeys[j]
  { }

  // ---------------------------------------------------------------------
  // Validation

  /** `[x for x in value if x.strip()]`; an item that is not a string has no `strip` (None). */
  function NonBlank(items: seq<Value>): (r: Option<seq<Value>>)
    ensures r.Some? ==> forall j :: 0 <= j < |r.value| ==> r.value[j].VStr? && StripWs(r.value[j].s) != ""
    decreases |items|
  {
    if |items| == 0 then Some([])
    else
      var last := items[|items| - 1];
      match NonBlank(items[..|items| - 1])
      case None => None
      case Some(kept) =>
        if !last.VStr? then None
        else if StripWs(last.s) == "" then Some(kept)
        else Some(kept + [last])
  }

  /** What the validation loop does with one option. */
  datatype Check = Drop | Keep(v: Value) | Fail(error: string)

  function CheckOption(key: string, value: Value, table: map<string, Kind>): Check {
    if key !in table then Drop
    else if !HasKind(value, table[key]) then Fail("TypeError")
    else if value.VList? || value.VTuple? then
      match NonBlank(value.items)
      case None => Fail("AttributeError")
      case Some(kept) => if |kept| == 0 then Drop else Keep(VList(kept))
    else Keep(value)
  }

  /** The options after the validation loop, or the exception it raises first. */
  function ValidateAll(es: Entries<Value>, table: map<string, Kind>): Result<Entries<Value>>
    decreases |es|
  {
    if |es| == 0 then Ok([])
    else match ValidateAll(es[..|es| - 1], table)
      case Err(e) => Err(e)
      case Ok(d) =>
        var (k, v) := es[|es| - 1];
        match CheckOption(k, v, table)
        case Drop => Ok(d)
        case Keep(w) => Ok(d + [(k, w)])
        case Fail(e) => Err(e)
  }

  /** The loop's step. */
  lemma ValidateNext(es: Entries<Value>, i: nat, table: map<string, Kind>)
    requires i < |es|
    ensures var r := ValidateAll(es[..i], table);
      ValidateAll(es[..i + 1], table) ==
        if r.Err? then r
        else match CheckOption(es[i].0, es[i].1, table)
          case Drop => Ok(r.value)
          case Keep(w) => Ok(r.value + [(es[i].0, w)])
          case Fail(e) => Err(e)
  {
    TakeTake(es, i);
  }

  /** Once an option has raised, the later ones are never looked at. */
  lemma {:induction false} ValidateStuck(es: Entries<Value>, i: nat, table: map<string, Kind>)
    requires i <= |es| && ValidateAll(es[..i], table).Err?
    ensures ValidateAll(es, table) == ValidateAll(es[..i], table)
    decreases |es| - i
  {
    if i < |es| {
      var init := es[..|es| - 1];
      assert init[..i] == es[..i];
      ValidateStuck(init, i, table);
    } else {
      assert es[..i] == es;
    }
  }

  /** Validation never adds a key. */
  lemma {:induction false} ValidateAllKeys(es: Entries<Value>, k: string, table: map<string, Kind>)
    requires !HasKey(es, k) && ValidateAll(es, table).Ok?
    ensures !HasKey(ValidateAll(es, table).value, k)
    decreases |es|
  {
    if |es| > 0 {
      var init := es[..|es| - 1];
      assert !HasKey(init, k);
      ValidateAllKeys(init, k, table);
      var r := ValidateAll(init, table).value;
      var (k2, v) := es[|es| - 1];
      assert k2 != k;
      match CheckOption(k2, v, table)
      case Keep(w) => HasKeyConcat(r, [(k2, w)]);
      case Drop =>
      case Fail(_) =>
    }
  }

  /** A key of a dict with unique keys occurs neither before nor after its own entry. */
  lemma UniqueAt(es: Entries<Value>, i: nat)
    requires UniqueKeys(es) && i < |es|
    ensures !HasKey(es[..i], es[i].0) && !HasKey(es[i + 1..], es[i].0)
    ensures es[i..] == [es[i]] + es[i + 1..]
  {
  }

  /** The loop invariant: the options seen so far are validated, the rest untouched. */
  predicate Between(opts: Entries<Value>, copy: Entries<Value>, i: nat, table: map<string, Kind>)
    requires i <= |copy|
  {
    ValidateAll(copy[..i], table).Ok? && opts == ValidateAll(copy[..i], table).value + copy[i..]
  }

  /** Popping an option the check drops keeps the invariant. */
  lemma DropStep(copy: Entries<Value>, i: nat, table: map<string, Kind>, opts: Entries<Value>)
    requires UniqueKeys(copy) && i < |copy| && Between(opts, copy, i, table)
    requires CheckOption(copy[i].0, copy[i].1, table).Drop?
    ensures Between(Remove(opts, copy[i].0), copy, i + 1, table)
  {
    var done := ValidateAll(copy[..i], table).value;
    ValidateNext(copy, i, table);
    UniqueAt(copy, i);
    ValidateAllKeys(copy[..i], copy[i].0, table);
    Assoc(done, [copy[i]], copy[i + 1..]);
    RemoveMiddle(done, copy[i], copy[i + 1..]);
  }

  /** Writing back a pruned list keeps the invariant. */
  lemma ListStep(copy: Entries<Value>, i: nat, table: map<string, Kind>, opts: Entries<Value>, w: Value)
    requires UniqueKeys(copy) && i < |copy| && Between(opts, copy, i, table)
    requires CheckOption(copy[i].0, copy[i].1, table) == Keep(w)
    ensures Between(Put(opts, copy[i].0, w), copy, i + 1, table)
  {
    var done := ValidateAll(copy[..i], table).value;
    ValidateNext(copy, i, table);
    UniqueAt(copy, i);
    ValidateAllKeys(copy[..i], copy[i].0, table);
    Assoc(done, [copy[i]], copy[i + 1..]);
    PutMiddle(done, copy[i], copy[i + 1..], w);
    Assoc(done, [(copy[i].0, w)], copy[i + 1..]);
  }

  /** Leaving a valid scalar in place keeps the invariant. */
  lemma KeepStep(copy: Entries<Value>, i: nat, table: map<string, Kind>, opts: Entries<Value>)
    requires i < |copy| && Between(opts, copy, i, table)
    requires CheckOption(copy[i].0, copy[i].1, table) == Keep(copy[i].1)
    ensures Between(opts, copy, i + 1, table)
  {
    var done := ValidateAll(copy[..i], table).value;
    ValidateNext(copy, i, table);
    assert copy[i..] == [copy[i]] + copy[i + 1..];
    Assoc(done, [copy[i]], copy[i + 1..]);
  }

  /** An option that fails its check is the exception of the whole loop. */
  lemma FailStep(copy: Entries<Value>, i: nat, table: map<string, Kind>, opts: Entries<Value>)
    requires i < |copy| && Between(opts, copy, i, table)
    requires CheckOption(copy[i].0, copy[i].1, table).Fail?
    ensures ValidateAll(copy, table) == Err(CheckOption(copy[i].0, copy[i].1, table).error)
  {
    ValidateNext(copy, i, table);
    ValidateStuck(copy, i + 1, table);
  }

  /**
   * The validation loop over a copy of `options`: unknown keys are popped,
   * a value of the wrong type raises `TypeError`, a list loses its blank
   * entries and is popped once none remain.
   */
  method ValidateOptions(options: Entries<Value>, table: map<string, Kind>) returns (r: Result<Entries<Value>>)
    requires UniqueKeys(options)
    ensures r == ValidateAll(options, table)
  {
    var copy := options;
    var opts := options;
    var i := 0;
    while i < |copy|
      invariant 0 <= i <= |copy|
      invariant Between(opts, copy, i, table)
    {
      var (key, value) := copy[i];
      if key !in table {
        DropStep(copy, i, table, opts);
        opts := Remove(opts, key);
      } else if !HasKind(value, table[key]) {
        FailStep(copy, i, table, opts);
        return Err("TypeError");
      } else if value.VList? || value.VTuple? {
        var kept := NonBlank(value.items);
        if kept.None? {
          FailStep(copy, i, table, opts);
          return Err("AttributeError");
        }
        if |kept.value| == 0 {
          DropStep(copy, i, table, opts);
          opts := Remove(opts, key);
        } else {
          ListStep(copy, i, table, opts, VList(kept.value));
          opts := Put(opts, key, VList(kept.value));
        }
      } else {
        KeepStep(copy, i, table, opts);
      }
      i := i + 1;
    }
    FullPrefix(copy);
    assert copy[..i] == copy && copy[i..] == [];
    assert ValidateAll(copy, table).value + [] == ValidateAll(copy, table).value;
    return Ok(opts);
  }

  /**
   * Validation fails exactly when some option fails its check, and then
   * with the first failing option's exception.
   */
  lemma {:induction false} ValidateAllFails(es: Entries<Value>, table: map<string, Kind>)
    ensures ValidateAll(es, table).Err? <==> exists i :: 0 <= i < |es| && CheckOption(es[i].0, es[i].1, table).Fail?
    decreases |es|
  {
    if |es| > 0 {
      var init := es[..|es| - 1];
      ValidateAllFails(init, table);
      if ValidateAll(init, table).Err? {
        var i :| 0 <= i < |init| && CheckOption(init[i].0, init[i].1, table).Fail?;
        assert init[i] == es[i];
      } else {
        assert forall i :: 0 <= i < |init| ==> init[i] == es[i];
      }
    }
  }

  /** A value ready for the job string: a list of strings, a bool, a string or a float. */
  predicate Ready(v: Value) {
    (v.VList? && forall j :: 0 <= j < |v.items| ==> v.items[j].VStr?) || v.VBool? || v.VStr? || v.VFloat?
  }

  predicate AllReady(es: Entries<Value>) {
    forall i :: 0 <= i < |es| ==> Ready(es[i].1)
  }

  /**
   * What survives validation: only known flags, each of its declared type,
   * lists as non-empty lists of non-blank strings, in their original order.
   */
  lemma {:induction false} ValidatedShape(es: Entries<Value>, table: map<string, Kind>)
    requires ValidateAll(es, table).Ok?
    ensures var d := ValidateAll(es, table).value;
      AllReady(d) && forall i :: 0 <= i < |d| ==> Validated(d[i], table)
    decreases |es|
  {
    if |es| > 0 {
      var init := es[..|es| - 1];
      ValidatedShape(init, table);
      var d0 := ValidateAll(init, table).value;
      var (k, v) := es[|es| - 1];
      var c := CheckOption(k, v, table);
      if c.Keep? {
        KeptShape(k, v, table);
        var d := d0 + [(k, c.v)];
        assert ValidateAll(es, table).value == d;
        forall i | 0 <= i < |d| ensures Ready(d[i].1) && Validated(d[i], table) {
          if i < |d0| { assert d[i] == d0[i]; }
        }
      }
    }
  }

  /**
   * One option as validation leaves it: a known flag, a value of its
   * declared type, a list non-empty and of non-blank strings.
   */
  predicate Validated(e: (string, Value), table: map<string, Kind>) {
    e.0 in table && HasKind(e.1, table[e.0])
    && (e.1.VList? ==> |e.1.items| > 0 && forall j :: 0 <= j < |e.1.items| ==> e.1.items[j].VStr? && StripWs(e.1.items[j].s) != "")
  }

  lemma KeptShape(k: string, v: Value, table: map<string, Kind>)
    requires CheckOption(k, v, table).Keep?
    ensures Ready(CheckOption(k, v, table).v) && Validated((k, CheckOption(k, v, table).v), table)
  { }

  // ---------------------------------------------------------------------
  // writeCreases and the callbacks

  /** For Maya 2018 and later `writeCreases` is popped (default False) and set again as `autoSubd`. */
  function RenameCreases(opts: Entries<Value>, mayaVersion: int): Entries<Value> {
    if mayaVersion >= 2018 then
      Put(Remove(opts, "writeCreases"), "autoSubd", GetOr(opts, "writeCreases", VBool(false)))
    else opts
  }

  /** From 2018 on no `writeCreases` flag is left and `autoSubd` carries its value. */
  lemma RenameCreasesMoves(opts: Entries<Value>, mayaVersion: int)
    requires mayaVersion >= 2018
    ensures var r := RenameCreases(opts, mayaVersion);
      !HasKey(r, "writeCreases")
      && Get(r, "autoSubd") == Some(GetOr(opts, "writeCreases", VBool(false)))
  {
    var removed := Remove(opts, "writeCreases");
    var r := Put(removed, "autoSubd", GetOr(opts, "writeCreases", VBool(false)));
    GetPut(removed, "autoSubd", GetOr(opts, "writeCreases", VBool(false)), "writeCreases");
    GetPut(removed, "autoSubd", GetOr(opts, "writeCreases", VBool(false)), "autoSubd");
  }

  /** The callbacks in their source order, each with the flag it sets. */
  function Callbacks(a: Args): seq<(string, string)> {
    [("melPerFrameCallback", a.melPerFrameCallback), ("melPostJobCallback", a.melPostJobCallback),
     ("pythonPerFrameCallback", a.pythonPerFrameCallback), ("pythonPostJobCallback", a.pythonPostJobCallback)]
  }

  /** Only a set (non-empty) callback becomes an option. */
  function AddCallbacks(opts: Entries<Value>, cbs: seq<(string, string)>): Entries<Value>
    decreases |cbs|
  {
    if |cbs| == 0 then opts
    else
      var o := AddCallbacks(opts, cbs[..|cbs| - 1]);
      var (k, cb) := cbs[|cbs| - 1];
      if cb != "" then Put(o, k, VStr(cb)) else o
  }

  /** A callback flag ends up set exactly when its last callback is set. */
  lemma {:induction false} AddCallbacksGet(opts: Entries<Value>, cbs: seq<(string, string)>, k: string)
    ensures Get(AddCallbacks(opts, cbs), k) ==
      if exists i :: 0 <= i < |cbs| && cbs[i].0 == k && cbs[i].1 != "" then
        var i := LastSet(cbs, k); Some(VStr(cbs[i].1))
      else Get(opts, k)
    decreases |cbs|
  {
    if |cbs| > 0 {
      var init := cbs[..|cbs| - 1];
      AddCallbacksGet(opts, init, k);
      var o := AddCallbacks(opts, init);
      var (k2, cb) := cbs[|cbs| - 1];
      if cb != "" {
        GetPut(o, k2, VStr(cb), k);
      }
      assert forall i :: 0 <= i < |init| ==> init[i] == cbs[i];
      if exists i :: 0 <= i < |init| && init[i].0 == k && init[i].1 != "" {
        assert LastSet(init, k) < |init|;
      }
    }
  }

  /** The index of the last set callback for flag `k`. */
  function LastSet(cbs: seq<(string, string)>, k: string): (i: nat)
    requires exists i :: 0 <= i < |cbs| && cbs[i].0 == k && cbs[i].1 != ""
    ensures i < |cbs| && cbs[i].0 == k && cbs[i].1 != ""
    ensures forall j :: i < j < |cbs| ==> !(cbs[j].0 == k && cbs[j].1 != "")
    decreases |cbs|
  {
    var n := |cbs| - 1;
    if cbs[n].0 == k && cbs[n].1 != "" then n
    else
      var init := cbs[..n];
      assert exists i :: 0 <= i < |init| && init[i].0 == k && init[i].1 != "" by {
        var i :| 0 <= i < |cbs| && cbs[i].0 == k && cbs[i].1 != "";
        assert i < n && init[i] == cbs[i];
      }
      LastSet(init, k)
  }

  // ---------------------------------------------------------------------
  // The job string

  /** The text `format` gives a job-ready scalar. */
  function Text(v: Value): string
    requires v.VStr? || v.VFloat?
  {
    if v.VStr? then v.s else v.text
  }

  /** The job arguments of one option: one per list entry, a bare flag for True, nothing for False. */
  function EntryArgs(k: string, v: Value): (r: seq<string>)
    requires Ready(v)
  {
    if v.VList? then seq(|v.items|, j requires 0 <= j < |v.items| => "-" + k + " " + v.items[j].s)
    else if v.VBool? then (if v.b then ["-" + k] else [])
    else ["-" + k + " " + Text(v)]
  }

  function JobArgs(es: Entries<Value>): seq<string>
    requires AllReady(es)
    decreases |es|
  {
    if |es| == 0 then []
    else JobArgs(es[..|es| - 1]) + EntryArgs(es[|es| - 1].0, es[|es| - 1].1)
  }

  /** The job arguments of two dicts in a row are those of each, in a row. */
  lemma {:induction false} JobArgsAppend(a: Entries<Value>, b: Entries<Value>)
    requires AllReady(a) && AllReady(b)
    ensures AllReady(a + b) && JobArgs(a + b) == JobArgs(a) + JobArgs(b)
    decreases |b|
  {
    ReadyConcat(a, b);
    if |b| == 0 {
      assert a + b == a;
    } else {
      var init, last := b[..|b| - 1], b[|b| - 1];
      LastOfConcat(a, b);
      ReadyConcat(a, init);
      JobArgsAppend(a, init);
      var tail := EntryArgs(last.0, last.1);
      assert JobArgs(a + b) == JobArgs(a + init) + tail;
      assert JobArgs(b) == JobArgs(init) + tail;
      Assoc(JobArgs(a), JobArgs(init), tail);
    }
  }

  lemma ReadyConcat(a: Entries<Value>, b: Entries<Value>)
    requires AllReady(a) && AllReady(b)
    ensures AllReady(a + b)
  {
    forall i | 0 <= i < |a + b| ensures Ready((a + b)[i].1) {
      if i >= |a| { assert (a + b)[i] == b[i - |a|]; }
    }
  }

  /** A False flag contributes no argument at all; a True one exactly its bare flag. */
  lemma BoolFlag(es: Entries<Value>, k: string, b: bool)
    requires AllReady(es)
    ensures JobArgs(es + [(k, VBool(b))]) == JobArgs(es) + (if b then ["-" + k] else [])
  {
    assert (es + [(k, VBool(b))])[..|es|] == es;
  }

  /** The job arguments, built one option and one list entry at a time. */
  method BuildJobArgs(options: Entries<Value>) returns (args: seq<string>)
    requires AllReady(options)
    ensures args == JobArgs(options)
  {
    args := [];
    var i := 0;
    while i < |options|
      invariant 0 <= i <= |options|
      invariant AllReady(options[..i]) && args == JobArgs(options[..i])
    {
      var (key, value) := options[i];
      TakeTake(options, i);
      if value.VList? {
        var j := 0;
        ghost var before := args;
        while j < |value.items|
          invariant 0 <= j <= |value.items|
          invariant args == before + EntryArgs(key, value)[..j]
        {
          PrefixStep(EntryArgs(key, value), j);
          args := args + ["-" + key + " " + value.items[j].s];
          j := j + 1;
        }
        FullPrefix(EntryArgs(key, value));
      } else if value.VBool? {
        if value.b {
          args := args + ["-" + key];
        }
      } else {
        args := args + ["-" + key + " " + Text(value)];
      }
      i := i + 1;
    }
    FullPrefix(options);
  }

  /** `" ".join(job_args) + ' -file "path"'`. */
  function JobString(args: seq<string>, file: string): string {
    Join(args, " ") + " -file \"" + file + "\""
  }

  /** The file always closes the job string, with forward slashes only. */
  lemma JobStringFile(args: seq<string>, file: string)
    ensures var f := ForwardSlashes(file);
      EndsWith(JobString(args, f), " -file \"" + f + "\"") && '\\' !in f
  {
    var f := ForwardSlashes(file);
    var j := JobString(args, f);
    var tail := " -file \"" + f + "\"";
    assert j == Join(args, " ") + tail;
    assert j[|j| - |tail|..] == tail;
  }

  // ---------------------------------------------------------------------
  // extract_alembic

  /** The job string `extract_alembic` passes to `AbcExport`, or the exception it raises. */
  function ExtractAlembic(a: Args, timeline: (Value, Value), mayaVersion: int): Result<string> {
    match FrameRangeText(a.frameRange, a.startFrame, a.endFrame, timeline)
    case Err(e) => Err(e)
    case Ok(fr) =>
      match ValidateAll(InitialOptions(a, fr), AlembicArgs)
      case Err(e) => Err(e)
      case Ok(valid) =>
        var opts := AddCallbacks(RenameCreases(valid, mayaVersion), Callbacks(a));
        if AllReady(opts) then Ok(JobString(JobArgs(opts), ForwardSlashes(a.file)))
        else Err("TypeError")
  }

  /** The options handed to the job-string loop are always ready for it. */
  lemma FinalOptionsReady(valid: Entries<Value>, mayaVersion: int, cbs: seq<(string, string)>)
    requires AllReady(valid)
    requires mayaVersion >= 2018 ==> GetOr(valid, "writeCreases", VBool(false)).VBool?
    ensures AllReady(AddCallbacks(RenameCreases(valid, mayaVersion), cbs))
  {
    var r := RenameCreases(valid, mayaVersion);
    assert AllReady(r) by {
      if mayaVersion >= 2018 {
        var removed := Remove(valid, "writeCreases");
        RemoveReady(valid, "writeCreases");
        assert AllReady(removed);
      }
    }
    CallbacksReady(r, cbs);
  }

  lemma {:induction false} RemoveReady(d: Entries<Value>, k: string)
    requires AllReady(d)
    ensures AllReady(Remove(d, k))
    decreases |d|
  {
    if |d| > 0 {
      var init := d[..|d| - 1];
      RemoveReady(init, k);
      var r := Remove(init, k);
      if d[|d| - 1].0 != k {
        assert AllReady(r + [d[|d| - 1]]);
      }
    }
  }

  lemma {:induction false} CallbacksReady(opts: Entries<Value>, cbs: seq<(string, string)>)
    requires AllReady(opts)
    ensures AllReady(AddCallbacks(opts, cbs))
    decreases |cbs|
  {
    if |cbs| > 0 {
      CallbacksReady(opts, cbs[..|cbs| - 1]);
    }
  }

  /** `extract_alembic` up to the export call: the same steps, one dict update at a time. */
  method ExtractAlembicJob(a: Args, timeline: (Value, Value), mayaVersion: int) returns (r: Result<string>)
    ensures r == ExtractAlembic(a, timeline, mayaVersion)
  {
    var file := ForwardSlashes(a.file);
    var fr := FrameRangeText(a.frameRange, a.startFrame, a.endFrame, timeline);
    if fr.Err? {
      return Err(fr.error);
    }
    var initial := InitialOptions(a, fr.value);
    InitialUnique(a, fr.value);
    var valid := ValidateOptions(initial, AlembicArgs);
    if valid.Err? {
      return Err(valid.error);
    }
    var options := valid.value;
    ValidatedShape(initial, AlembicArgs);
    if mayaVersion >= 2018 {
      var creases := GetOr(options, "writeCreases", VBool(false));
      options := Remove(options, "writeCreases");
      options := Put(options, "autoSubd", creases);
    }
    var cbs := Callbacks(a);
    var i := 0;
    while i < |cbs|
      invariant 0 <= i <= |cbs|
      invariant options == AddCallbacks(RenameCreases(valid.value, mayaVersion), cbs[..i])
    {
      TakeTake(cbs, i);
      var (key, callback) := cbs[i];
      if callback != "" {
        options := Put(options, key, VStr(callback));
      }
      i := i + 1;
    }
    FullPrefix(cbs);
    if !AllReady(options) {
      return Err("TypeError");
    }
    var args := BuildJobArgs(options);
    r := Ok(JobString(args, file));
  }

  /**
   * With valid arguments the export never fails at the job-string stage:
   * once validation passes, every option left is ready to be written.
   */
  lemma ValidArgsGiveJob(a: Args, timeline: (Value, Value), mayaVersion: int)
    requires FrameRangeText(a.frameRange, a.startFrame, a.endFrame, timeline).Ok?
    requires ValidateAll(InitialOptions(a, FrameRangeText(a.frameRange, a.startFrame, a.endFrame, timeline).value), AlembicArgs).Ok?
    ensures ExtractAlembic(a, timeline, mayaVersion).Ok?
  {
    var fr := FrameRangeText(a.frameRange, a.startFrame, a.endFrame, timeline).value;
    var initial := InitialOptions(a, fr);
    var valid := ValidateAll(initial, AlembicArgs).value;
    ValidatedShape(initial, AlembicArgs);
    if mayaVersion >= 2018 {
      if HasKey(valid, "writeCreases") {
        var v := Get(valid, "writeCreases").value;
        var i :| 0 <= i < |valid| && valid[i] == ("writeCreases", v);
        assert HasKind(valid[i].1, AlembicArgs["writeCreases"]);
      }
    }
    FinalOptionsReady(valid, mayaVersion, Callbacks(a));
  }

  /** An empty frame range becomes `"start end"` of the float bounds; two items are joined the same way. */
  lemma FrameRangeCases(r: FrameRangeArg, s: Value, e: Value, timeline: (Value, Value))
    ensures r == RangeText("") && s.VFloat? && e.VFloat? ==>
      FrameRangeText(r, s, e, timeline) == Ok(s.text + " " + e.text)
    ensures r == RangeText("") && s.VInt? ==> FrameRangeText(r, s, e, timeline) == Err("AssertionError")
    ensures r.RangeItems? && |r.items| == 2 ==> FrameRangeText(r, s, e, timeline) == Ok(r.items[0] + " " + r.items[1])
    ensures r.RangeItems? && |r.items| != 0 && |r.items| != 2 ==>
      FrameRangeText(r, s, e, timeline) == Err("AssertionError")
  {
  }
}

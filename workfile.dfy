/**
 * The Maya placeholder plugin of the workfile template builder: how a
 * placeholder's data is written onto its locator node (containers as
 * `JSON::` strings) and read back, how an edited placeholder is updated,
 * the selection checks around creating and updating placeholders, and the
 * per-build cache of placeholder nodes by plugin identifier.
 */
module WorkfileTemplate {
  import opened Strs
  import opened PyData
  import Json
  import Plugin

  /** The marker in front of a JSON-encoded attribute value. */
  const JsonPrefix: string := "JSON::"

  // ---------------------------------------------------------------------
  // _collect_scene_placeholders

  /** One pass over the placeholder nodes, appending each to the list of its identifier. */
  function GroupIds(nodes: seq<string>, idOf: string -> string): map<string, seq<string>>
    decreases |nodes|
  {
    if |nodes| == 0 then map[]
    else
      var m := GroupIds(nodes[..|nodes| - 1], idOf);
      var n := nodes[|nodes| - 1];
      var k := idOf(n);
      m[k := (if k in m then m[k] else []) + [n]]
  }

  /** Reference definition: the nodes whose identifier is `id`, in scene order. */
  function NodesWith(nodes: seq<string>, idOf: string -> string, id: string): (r: seq<string>)
    ensures forall j :: 0 <= j < |r| ==> r[j] in nodes && idOf(r[j]) == id
    decreases |nodes|
  {
    if |nodes| == 0 then []
    else
      var init := NodesWith(nodes[..|nodes| - 1], idOf, id);
      var n := nodes[|nodes| - 1];
      if idOf(n) == id then init + [n] else init
  }

  /** The cache holds, under each identifier, exactly the nodes carrying it. */
  lemma {:induction false} GroupIdsNodes(nodes: seq<string>, idOf: string -> string, id: string)
    ensures id in GroupIds(nodes, idOf) <==> |NodesWith(nodes, idOf, id)| > 0
    ensures id in GroupIds(nodes, idOf) ==> GroupIds(nodes, idOf)[id] == NodesWith(nodes, idOf, id)
    decreases |nodes|
  {
    if |nodes| > 0 {
      GroupIdsNodes(nodes[..|nodes| - 1], idOf, id);
    }
  }

  /** A node carrying identifier `id` is listed under it. */
  lemma NodeListed(nodes: seq<string>, idOf: string -> string, j: nat)
    requires j < |nodes|
    ensures idOf(nodes[j]) in GroupIds(nodes, idOf) && nodes[j] in GroupIds(nodes, idOf)[idOf(nodes[j])]
  {
    NodesWithHas(nodes, idOf, j);
    GroupIdsNodes(nodes, idOf, idOf(nodes[j]));
  }

  lemma {:induction false} NodesWithHas(nodes: seq<string>, idOf: string -> string, j: nat)
    requires j < |nodes|
    ensures nodes[j] in NodesWith(nodes, idOf, idOf(nodes[j]))
    decreases |nodes|
  {
    if j < |nodes| - 1 {
      NodesWithHas(nodes[..|nodes| - 1], idOf, j);
    }
  }

  /**
   * `_collect_scene_placeholders`: the cached map when the build already
   * has one, otherwise the map from the scene's placeholder nodes, which is
   * then cached.  Returns the map and the build's new cache entry.
   */
  method CollectScenePlaceholders(cached: Option<map<string, seq<string>>>, nodes: seq<string>, idOf: string -> string)
    returns (r: map<string, seq<string>>, cache: Option<map<string, seq<string>>>)
    ensures cache == Some(r)
    ensures cached.Some? ==> r == cached.value
    ensures cached.None? ==> r == GroupIds(nodes, idOf)
  {
    if cached.Some? {
      return cached.value, cached;
    }
    r := map[];
    var i := 0;
    while i < |nodes|
      invariant 0 <= i <= |nodes|
      invariant r == GroupIds(nodes[..i], idOf)
    {
      var node := nodes[i];
      var id := idOf(node);
      TakeTake(nodes, i);
      r := r[id := (if id in r then r[id] else []) + [node]];
      i := i + 1;
    }
    FullPrefix(nodes);
    cache := Some(r);
  }

  // ---------------------------------------------------------------------
  // imprint / read

  /** What `imprint` writes for one value: containers as `JSON::` text, scalars unchanged. */
  function EncodeValue(v: Value): (r: Value)
    ensures !IsContainer(v) ==> r == v
    ensures IsContainer(v) ==> r.VStr? && StartsWith(r.s, JsonPrefix)
  {
    if IsContainer(v) then VStr(JsonPrefix + Json.Dumps(v)) else v
  }

  /** The data dict after `imprint` rewrote it. */
  function Encoded(data: Entries<Value>): (r: Entries<Value>)
    ensures |r| == |data|
    ensures forall i :: 0 <= i < |data| ==> r[i] == (data[i].0, EncodeValue(data[i].1))
  {
    seq(|data|, i requires 0 <= i < |data| => (data[i].0, EncodeValue(data[i].1)))
  }

  /**
   * `MayaPlaceholderPlugin.imprint`: rewrites the containers of `data` in
   * place (returned as `written`), then hands it to `lib.imprint`; `r` is
   * the node's attributes afterwards, None when a value cannot be stored.
   */
  method ImprintPlaceholder(node: map<string, Value>, data: Entries<Value>)
    returns (written: Entries<Value>, r: Option<map<string, Value>>)
    ensures written == Encoded(data)
    ensures r == Plugin.Imprint(node, ToMap(written))
  {
    written := data;
    var i := 0;
    while i < |written|
      invariant 0 <= i <= |written| == |data|
      invariant forall j :: 0 <= j < i ==> written[j] == (data[j].0, EncodeValue(data[j].1))
      invariant forall j :: i <= j < |data| ==> written[j] == data[j]
    {
      var (key, value) := written[i];
      if IsContainer(value) {
        written := written[i := (key, VStr(JsonPrefix + Json.Dumps(value)))];
      }
      i := i + 1;
    }
    r := Plugin.Imprint(node, ToMap(written));
  }

  /** Whether `read` decodes the value: a string starting with `JSON::`. */
  predicate Marked(v: Value) {
    v.VStr? && StartsWith(v.s, JsonPrefix)
  }

  /** What `read` makes of one value; text after the marker that is not JSON raises. */
  function DecodeValue(v: Value): (r: Result<Value>)
    ensures !Marked(v) ==> r == Ok(v)
    ensures Marked(v) ==> (r.Ok? <==> Json.Loads(v.s[|JsonPrefix|..]).Some?)
  {
    if Marked(v) then
      match Json.Loads(v.s[|JsonPrefix|..])
      case None => Err("JSONDecodeError")
      case Some(x) => Ok(x)
    else Ok(v)
  }

  /** The dict `read` returns, or the error of the first value that fails to decode. */
  function Decoded(data: Entries<Value>): Result<Entries<Value>>
    decreases |data|
  {
    if |data| == 0 then Ok([])
    else
      var last := data[|data| - 1];
      match Decoded(data[..|data| - 1])
      case Err(e) => Err(e)
      case Ok(init) =>
        match DecodeValue(last.1)
        case Err(e) => Err(e)
        case Ok(v) => Ok(init + [(last.0, v)])
  }

  /** `read` succeeds exactly when every marked value holds JSON, and then decodes value by value. */
  lemma {:induction false} DecodedPointwise(data: Entries<Value>)
    ensures Decoded(data).Ok? <==> forall i :: 0 <= i < |data| ==> DecodeValue(data[i].1).Ok?
    ensures Decoded(data).Ok? ==> |Decoded(data).value| == |data|
    ensures Decoded(data).Ok? ==> forall i :: 0 <= i < |data| ==> Decoded(data).value[i] == (data[i].0, DecodeValue(data[i].1).value)
    decreases |data|
  {
    if |data| > 0 {
      var init := data[..|data| - 1];
      DecodedPointwise(init);
      assert forall i :: 0 <= i < |init| ==> init[i] == data[i];
    }
  }

  lemma DecodedStep(data: Entries<Value>, i: nat, done: Entries<Value>)
    requires i < |data| && Decoded(data[..i]) == Ok(done) && DecodeValue(data[i].1).Ok?
    ensures Decoded(data[..i + 1]) == Ok(done + [(data[i].0, DecodeValue(data[i].1).value)])
  {
    TakeTake(data, i);
  }

  lemma DecodedStops(data: Entries<Value>, i: nat, e: string)
    requires i < |data| && Decoded(data[..i]).Ok? && DecodeValue(data[i].1) == Err(e)
    ensures Decoded(data) == Err(e)
  {
    TakeTake(data, i);
    DecodedPointwise(data);
    DecodedPointwise(data[..i + 1]);
    DecodedErrFirst(data, i + 1, e);
  }

  /** The error a prefix ends in is the error of the whole. */
  lemma {:induction false} DecodedErrFirst(data: Entries<Value>, n: nat, e: string)
    requires n <= |data| && Decoded(data[..n]) == Err(e)
    ensures Decoded(data) == Err(e)
    decreases |data| - n
  {
    if n == |data| {
      FullPrefix(data);
    } else {
      TakeTake(data, n);
      DecodedErrFirst(data, n + 1, e);
    }
  }

  /** `MayaPlaceholderPlugin.read`: the loop over the node's data, decoding marked values in place. */
  method ReadPlaceholder(data: Entries<Value>) returns (r: Result<Entries<Value>>)
    ensures r == Decoded(data)
  {
    var done: Entries<Value> := [];
    var i := 0;
    while i < |data|
      invariant 0 <= i <= |data|
      invariant Decoded(data[..i]) == Ok(done)
    {
      var (key, value) := data[i];
      if Marked(value) {
        var text := value.s[|JsonPrefix|..];
        match Json.Loads(text)
        case None =>
          DecodedStops(data, i, "JSONDecodeError");
          return Err("JSONDecodeError");
        case Some(x) =>
          value := x;
      }
      DecodedStep(data, i, done);
      done := done + [(key, value)];
      i := i + 1;
    }
    FullPrefix(data);
    return Ok(done);
  }

  /** The placeholder values that come back from the round trip. */
  predicate RoundTrips(v: Value) {
    (IsContainer(v) ==> Json.Encodable(v)) && !Marked(v)
  }

  /**
   * Round trip: data written by `imprint` and read back by `read` is the
   * original data, with tuples turned into lists.  Plain strings must not
   * start with the marker themselves (those would be decoded on read).
   */
  lemma ImprintReadRoundTrip(data: Entries<Value>)
    requires forall i :: 0 <= i < |data| ==> RoundTrips(data[i].1)
    ensures Decoded(Encoded(data)) == Ok(Json.NormEntries(data))
  {
    var enc := Encoded(data);
    forall i | 0 <= i < |enc|
      ensures DecodeValue(enc[i].1) == Ok(Json.Norm(data[i].1))
    {
      var v := data[i].1;
      if IsContainer(v) {
        var t := JsonPrefix + Json.Dumps(v);
        assert enc[i].1 == VStr(t);
        assert t[..|JsonPrefix|] == JsonPrefix;
        assert t[|JsonPrefix|..] == Json.Dumps(v);
        Json.DumpsLoads(v);
      } else {
        assert enc[i].1 == v;
      }
    }
    DecodedPointwise(enc);
    assert Decoded(enc).value == Json.NormEntries(data);
  }

  // ---------------------------------------------------------------------
  // update_placeholder

  /** `data.get(key)`: None when the key is missing. */
  function Lookup(data: map<string, Value>, key: string): Value {
    if key in data then data[key] else VNone
  }

  /**
   * `changed_values`: the new entries that differ from the item's data, in
   * order.  "Differ" is Python's `!=`: `2.0` over a stored `2`, or `True`
   * over a stored `1`, is no change.
   */
  function Changed(edited: Entries<Value>, prior: map<string, Value>): (r: Entries<Value>)
    ensures |r| <= |edited|
    decreases |edited|
  {
    if |edited| == 0 then []
    else
      var init := Changed(edited[..|edited| - 1], prior);
      var (k, v) := edited[|edited| - 1];
      if !PyEq(v, Lookup(prior, k)) then init + [(k, v)] else init
  }

  /** An entry is among the changed values exactly when Python sees its value differ from the stored one. */
  lemma {:induction false} ChangedMembers(edited: Entries<Value>, prior: map<string, Value>, x: (string, Value))
    ensures x in Changed(edited, prior) <==> x in edited && !PyEq(x.1, Lookup(prior, x.0))
    decreases |edited|
  {
    if |edited| > 0 {
      var init := edited[..|edited| - 1];
      var last := edited[|edited| - 1];
      ChangedMembers(init, prior, x);
      assert edited == init + [last];
      assert x in edited <==> x in init || x == last;
    }
  }

  /** An edit to a number Python sees equal to the stored one (`2.0` over `2`, `True` over `1`) is no change. */
  lemma EqualNumberUnchanged(n: int)
    ensures Changed([("x", VFloat(IntToStr(n) + ".0"))], map["x" := VInt(n)]) == []
    ensures Changed([("x", VBool(true))], map["x" := VInt(1)]) == []
    ensures Changed([("x", VStr(IntToStr(n)))], map["x" := VInt(n)]) == [("x", VStr(IntToStr(n)))]
  {
    NumbersAcrossTypes(n);
  }

  /** The first loop of `update_placeholder`. */
  method ChangedValues(edited: Entries<Value>, prior: map<string, Value>) returns (changed: Entries<Value>)
    ensures changed == Changed(edited, prior)
  {
    changed := [];
    var i := 0;
    while i < |edited|
      invariant 0 <= i <= |edited|
      invariant changed == Changed(edited[..i], prior)
    {
      var (key, value) := edited[i];
      TakeTake(edited, i);
      if !PyEq(value, Lookup(prior, key)) {
        changed := changed + [(key, value)];
      }
      i := i + 1;
    }
    FullPrefix(edited);
  }

  /** The placeholder as the template builder holds it: node name and data. */
  class PlaceholderItem {
    var sceneIdentifier: string
    var data: map<string, Value>

    constructor (sceneIdentifier: string, data: map<string, Value>)
      ensures this.sceneIdentifier == sceneIdentifier && this.data == data
    {
      this.sceneIdentifier := sceneIdentifier;
      this.data := data;
    }
  }

  /** The item's data after an update: every changed key takes its new value. */
  function UpdatedData(prior: map<string, Value>, edited: Entries<Value>): map<string, Value> {
    prior + ToMap(Changed(edited, prior))
  }

  /** The item's data after the update AS WRITTEN: every changed key takes the loop's last `value`. */
  function UpdatedDataAsWritten(prior: map<string, Value>, edited: Entries<Value>): map<string, Value> {
    var changed := Changed(edited, prior);
    if |edited| == 0 then prior
    else prior + map k | k in ToMap(changed) :: edited[|edited| - 1].1
  }

  /**
   * `update_placeholder` as the source writes it: the second loop assigns
   * the leftover `value` of the first loop to every changed key.  The node
   * gets the changed values (attributes of those names replaced).
   */
  method UpdatePlaceholderAsWritten(item: PlaceholderItem, edited: Entries<Value>, attrs: map<string, Value>)
    returns (r: Option<map<string, Value>>)
    modifies item
    ensures item.data == UpdatedDataAsWritten(old(item.data), edited)
    ensures item.sceneIdentifier == old(item.sceneIdentifier)
    ensures r == Plugin.Imprint(attrs, ToMap(Encoded(Changed(edited, old(item.data)))))
  {
    var changed := ChangedValues(edited, item.data);
    if |edited| > 0 {
      var value := edited[|edited| - 1].1;
      var keys := ToMap(changed).Keys;
      item.data := item.data + map k | k in keys :: value;
    }
    var written;
    written, r := ImprintPlaceholder(attrs, changed);
  }

  lemma ApplyStep(prior: map<string, Value>, changed: Entries<Value>, i: nat)
    requires i < |changed|
    ensures (prior + ToMap(changed[..i]))[changed[i].0 := changed[i].1] == prior + ToMap(changed[..i + 1])
  {
    TakeTake(changed, i);
  }

  /** The second loop of `update_placeholder`: `data[key] = changed_values[key]` for each changed key. */
  method ApplyChanged(prior: map<string, Value>, changed: Entries<Value>) returns (data: map<string, Value>)
    ensures data == prior + ToMap(changed)
  {
    data := prior;
    var i := 0;
    assert changed[..0] == [];
    while i < |changed|
      invariant 0 <= i <= |changed|
      invariant data == prior + ToMap(changed[..i])
    {
      ApplyStep(prior, changed, i);
      data := data[changed[i].0 := changed[i].1];
      i := i + 1;
    }
    FullPrefix(changed);
  }

  /** `update_placeholder` with each changed key given its own new value. */
  method UpdatePlaceholder(item: PlaceholderItem, edited: Entries<Value>, attrs: map<string, Value>)
    returns (r: Option<map<string, Value>>)
    modifies item
    ensures item.data == UpdatedData(old(item.data), edited)
    ensures item.sceneIdentifier == old(item.sceneIdentifier)
    ensures r == Plugin.Imprint(attrs, ToMap(Encoded(Changed(edited, old(item.data)))))
  {
    var changed := ChangedValues(edited, item.data);
    item.data := ApplyChanged(item.data, changed);
    var written;
    written, r := ImprintPlaceholder(attrs, changed);
  }

  /**
   * After an update, `data.get(key)` on the item gives, for every key of the
   * edited placeholder data, the new value when Python sees it differ from
   * the stored one, and otherwise the stored value, which Python sees equal
   * to the new one; keys the edit does not mention keep their values.
   */
  lemma UpdatedHoldsNew(prior: map<string, Value>, edited: Entries<Value>)
    requires UniqueKeys(edited)
    ensures forall i :: 0 <= i < |edited| && !PyEq(edited[i].1, Lookup(prior, edited[i].0)) ==>
              Lookup(UpdatedData(prior, edited), edited[i].0) == edited[i].1
    ensures forall i :: 0 <= i < |edited| && PyEq(edited[i].1, Lookup(prior, edited[i].0)) ==>
              Lookup(UpdatedData(prior, edited), edited[i].0) == Lookup(prior, edited[i].0)
    ensures forall k :: k in prior && !HasKey(edited, k) ==> UpdatedData(prior, edited)[k] == prior[k]
  {
    forall i | 0 <= i < |edited|
      ensures !PyEq(edited[i].1, Lookup(prior, edited[i].0)) ==> Lookup(UpdatedData(prior, edited), edited[i].0) == edited[i].1
      ensures PyEq(edited[i].1, Lookup(prior, edited[i].0)) ==> Lookup(UpdatedData(prior, edited), edited[i].0) == Lookup(prior, edited[i].0)
    {
      UpdatedHoldsAt(prior, edited, i);
    }
    forall k | k in prior && !HasKey(edited, k)
      ensures UpdatedData(prior, edited)[k] == prior[k]
    {
      UpdatedKeeps(prior, edited, k);
    }
  }

  lemma UpdatedHoldsAt(prior: map<string, Value>, edited: Entries<Value>, i: nat)
    requires UniqueKeys(edited) && i < |edited|
    ensures !PyEq(edited[i].1, Lookup(prior, edited[i].0)) ==> Lookup(UpdatedData(prior, edited), edited[i].0) == edited[i].1
    ensures PyEq(edited[i].1, Lookup(prior, edited[i].0)) ==> Lookup(UpdatedData(prior, edited), edited[i].0) == Lookup(prior, edited[i].0)
  {
    var changed := Changed(edited, prior);
    var k := edited[i].0;
    if !PyEq(edited[i].1, Lookup(prior, k)) {
      ChangedUniqueValue(edited, prior, i);
    } else if HasKey(changed, k) {
      var j :| 0 <= j < |changed| && changed[j].0 == k;
      ChangedMembers(edited, prior, changed[j]);
    }
  }

  lemma UpdatedKeeps(prior: map<string, Value>, edited: Entries<Value>, k: string)
    requires k in prior && !HasKey(edited, k)
    ensures UpdatedData(prior, edited)[k] == prior[k]
  {
    var changed := Changed(edited, prior);
    if HasKey(changed, k) {
      var j :| 0 <= j < |changed| && changed[j].0 == k;
      ChangedMembers(edited, prior, changed[j]);
    }
  }

  /** A changed entry of unique-keyed data is what the changed values map its key to. */
  lemma ChangedUniqueValue(edited: Entries<Value>, prior: map<string, Value>, i: nat)
    requires UniqueKeys(edited) && i < |edited| && !PyEq(edited[i].1, Lookup(prior, edited[i].0))
    ensures edited[i].0 in ToMap(Changed(edited, prior)) && ToMap(Changed(edited, prior))[edited[i].0] == edited[i].1
  {
    var changed := Changed(edited, prior);
    ChangedMembers(edited, prior, edited[i]);
    var j :| 0 <= j < |changed| && changed[j] == edited[i];
    assert HasKey(changed, edited[i].0);
    var v := ToMap(changed)[edited[i].0];
    assert (edited[i].0, v) in changed;
    ChangedMembers(edited, prior, (edited[i].0, v));
  }

  /**
   * The stale value: with two edited keys, the item's data as written
   * gives the first key the second key's value.
   */
  lemma StaleValueShown()
    ensures var edited := [("a", VInt(1)), ("b", VInt(2))];
            UpdatedDataAsWritten(map[], edited)["a"] == VInt(2) != VInt(1) == UpdatedData(map[], edited)["a"]
  {
    var edited := [("a", VInt(1)), ("b", VInt(2))];
    assert UniqueKeys(edited);
    ChangedUniqueValue(edited, map[], 0);
  }

  // ---------------------------------------------------------------------
  // Selection checks

  /** A new placeholder: the parent it goes under, the locator name, the data imprinted. */
  datatype Creation = Creation(parent: Option<string>, name: string, data: Entries<Value>)

  /** `_create_placeholder_name`: the plugin identifier with `.` turned into `_`. */
  function PlaceholderName(identifier: string): (r: string)
    ensures '.' !in r
  {
    ReplaceDropsChar(identifier, ".", "_");
    Replace(identifier, ".", "_")
  }

  lemma {:induction false} ReplaceDropsChar(s: string, pat: string, rep: string)
    requires |pat| == 1 && pat[0] !in rep
    ensures pat[0] !in Replace(s, pat, rep)
    decreases |s|
  {
    if |s| >= |pat| {
      if s[..|pat|] == pat {
        ReplaceDropsChar(s[|pat|..], pat, rep);
      } else {
        assert s[0] != pat[0] by { assert s[..1] == [s[0]]; }
        ReplaceDropsChar(s[1..], pat, rep);
      }
    }
  }

  /**
   * `create_placeholder` up to the Maya calls.  When the plugin uses the
   * selection as parent (`use_selection_as_parent`, True on the base class
   * and False on the context placeholder plugin), more than one selected
   * node raises ValueError and one selected node becomes the parent;
   * otherwise the selection is not looked at and there is no parent.  The
   * data gets the plugin identifier before it is imprinted.
   */
  function CreatePlaceholder(useSelectionAsParent: bool, selection: seq<string>, identifier: string, data: Entries<Value>)
    : (r: Result<Creation>)
    ensures r.Err? <==> useSelectionAsParent && |selection| > 1
    ensures r.Ok? ==> (r.value.parent.Some? <==> useSelectionAsParent && |selection| == 1)
    ensures r.Ok? && r.value.parent.Some? ==> r.value.parent == Some(selection[0])
    ensures r.Ok? ==> Get(r.value.data, "plugin_identifier") == Some(VStr(identifier))
    ensures r.Ok? ==> r.value.name == PlaceholderName(identifier)
  {
    if useSelectionAsParent && |selection| > 1 then
      Err("More than one node is selected. Please select only one to define the parent.")
    else
      var parent := if useSelectionAsParent && |selection| > 0 then Some(selection[0]) else None;
      var tagged := Put(data, "plugin_identifier", VStr(identifier));
      GetPut(data, "plugin_identifier", VStr(identifier), "plugin_identifier");
      Ok(Creation(parent, PlaceholderName(identifier), tagged))
  }

  /** The selected nodes that are placeholders, in selection order. */
  function SelectedPlaceholders(selection: seq<string>, placeholders: set<string>): (r: seq<string>)
    ensures forall n :: n in r <==> n in selection && n in placeholders
    decreases |selection|
  {
    if |selection| == 0 then []
    else
      var init := SelectedPlaceholders(selection[..|selection| - 1], placeholders);
      var n := selection[|selection| - 1];
      assert selection == selection[..|selection| - 1] + [n];
      if n in placeholders then init + [n] else init
  }

  /**
   * The module-level `update_placeholder`: the one selected placeholder;
   * ValueError when none or more than one is selected.
   */
  function PlaceholderToUpdate(selection: seq<string>, placeholders: set<string>): (r: Result<string>)
    ensures r.Ok? <==> |SelectedPlaceholders(selection, placeholders)| == 1
    ensures r.Ok? ==> r.value in selection && r.value in placeholders
  {
    var items := SelectedPlaceholders(selection, placeholders);
    if |items| == 0 then Err("No node selected")
    else if |items| > 1 then Err("Too many selected nodes")
    else Ok(items[0])
  }

  /** When the update goes ahead, no other selected node is a placeholder. */
  lemma UpdateOnlyOne(selection: seq<string>, placeholders: set<string>, n: string)
    requires PlaceholderToUpdate(selection, placeholders).Ok?
    requires n in selection && n in placeholders
    ensures n == PlaceholderToUpdate(selection, placeholders).value
  {
    var items := SelectedPlaceholders(selection, placeholders);
    assert n in items;
  }
}

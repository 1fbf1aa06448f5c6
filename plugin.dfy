/**
 * The creator and loader base of the Maya host: how instance object sets are
 * found and cached per creator, how an instance's data is flattened onto its
 * object set and read back, the loader colour lookup and the loader's
 * namespace/group decision.  A node's user-defined attributes are a map from
 * attribute name to value; Maya queries on them are reads of that map.
 */
module Plugin {
  import opened Strs
  import opened PyData
  import Json

  /** `_get_attr`: the attribute's value, or the default when the node has no such attribute. */
  function GetAttr(attrs: map<string, Value>, attr: string, default: Value): Value {
    if attr in attrs then attrs[attr] else default
  }

  // ---------------------------------------------------------------------
  // cache_instance_data

  datatype ObjectSet = ObjectSet(name: string, attrs: map<string, Value>)

  /** The two instance ids of the publishing framework. */
  const AyonInstanceId: string := "ayon.create.instance"
  const AvalonInstanceId: string := "pyblish.avalon.instance"

  predicate IsInstance(s: ObjectSet) {
    var id := GetAttr(s.attrs, "id", VNone);
    id == VStr(AyonInstanceId) || id == VStr(AvalonInstanceId)
  }

  /** The creator identifier an instance set is cached under; None when it is not a creator instance. */
  function CreatorKey(s: ObjectSet): Option<Value> {
    var c := GetAttr(s.attrs, "creator_identifier", VNone);
    if IsInstance(s) && c != VNone then Some(c) else None
  }

  /** The family a legacy instance set is cached under; None for creator instances and broken ones. */
  function LegacyKey(s: ObjectSet): Option<Value> {
    var c := GetAttr(s.attrs, "creator_identifier", VNone);
    var f := GetAttr(s.attrs, "family", VNone);
    if IsInstance(s) && c == VNone && f != VNone then Some(f) else None
  }

  /** `cache.setdefault(k, []).append(x)`. */
  function Append(m: map<Value, seq<string>>, k: Value, x: string): map<Value, seq<string>> {
    m[k := (if k in m then m[k] else []) + [x]]
  }

  /** The cache one pass over the scene's object sets builds, for one choice of key. */
  function GroupBy(sets: seq<ObjectSet>, key: ObjectSet -> Option<Value>): map<Value, seq<string>>
    decreases |sets|
  {
    if |sets| == 0 then map[]
    else
      var s := sets[|sets| - 1];
      var m := GroupBy(sets[..|sets| - 1], key);
      match key(s)
      case None => m
      case Some(k) => Append(m, k, s.name)
  }

  /** Reference definition: the names of the sets keyed `k`, in scene order. */
  function Members(sets: seq<ObjectSet>, key: ObjectSet -> Option<Value>, k: Value): seq<string>
    decreases |sets|
  {
    if |sets| == 0 then []
    else
      var s := sets[|sets| - 1];
      Members(sets[..|sets| - 1], key, k) + (if key(s) == Some(k) then [s.name] else [])
  }

  /**
   * A key is in the cache exactly when some set carries it, and its list is
   * the names of those sets in scene order.
   */
  lemma {:induction false} GroupByMembers(sets: seq<ObjectSet>, key: ObjectSet -> Option<Value>, k: Value)
    ensures k in GroupBy(sets, key) <==> |Members(sets, key, k)| > 0
    ensures k in GroupBy(sets, key) ==> GroupBy(sets, key)[k] == Members(sets, key, k)
    decreases |sets|
  {
    if |sets| > 0 {
      GroupByMembers(sets[..|sets| - 1], key, k);
    }
  }

  /** A set is cached as a creator instance or as a legacy instance, never both. */
  lemma CreatorOrLegacy(s: ObjectSet)
    ensures CreatorKey(s).Some? ==> LegacyKey(s).None?
    ensures LegacyKey(s).Some? ==> CreatorKey(s).None? && IsInstance(s)
  {
  }

  /** The two cache entries of the shared collection data (None: not yet filled). */
  datatype SharedData = SharedData(instances: Option<map<Value, seq<string>>>, legacy: Option<map<Value, seq<string>>>)

  function Cached(shared: SharedData, sets: seq<ObjectSet>): SharedData {
    if shared.instances.None? then SharedData(Some(GroupBy(sets, CreatorKey)), Some(GroupBy(sets, LegacyKey)))
    else shared
  }

  /** `cache_instance_data`: fills both caches in one pass, unless the instance cache exists. */
  method CacheInstanceData(shared: SharedData, sets: seq<ObjectSet>) returns (r: SharedData)
    ensures r == Cached(shared, sets)
    ensures r.instances.Some?
  {
    if shared.instances.Some? {
      return shared;
    }
    var cache: map<Value, seq<string>> := map[];
    var legacy: map<Value, seq<string>> := map[];
    var i := 0;
    while i < |sets|
      invariant 0 <= i <= |sets|
      invariant cache == GroupBy(sets[..i], CreatorKey)
      invariant legacy == GroupBy(sets[..i], LegacyKey)
    {
      var s := sets[i];
      TakeTake(sets, i);
      if GetAttr(s.attrs, "id", VNone) != VStr(AyonInstanceId) && GetAttr(s.attrs, "id", VNone) != VStr(AvalonInstanceId) {
        // not an instance
      } else {
        var creatorId := GetAttr(s.attrs, "creator_identifier", VNone);
        if creatorId != VNone {
          cache := Append(cache, creatorId, s.name);
        } else {
          var family := GetAttr(s.attrs, "family", VNone);
          if family != VNone {
            legacy := Append(legacy, family, s.name);
          }
        }
      }
      i := i + 1;
    }
    FullPrefix(sets);
    r := SharedData(Some(cache), Some(legacy));
  }

  /** Filling the cache twice is filling it once: later calls find it and change nothing. */
  lemma CachedIdempotent(shared: SharedData, sets: seq<ObjectSet>, later: seq<ObjectSet>)
    ensures Cached(Cached(shared, sets), later) == Cached(shared, sets)
  {
  }

  // ---------------------------------------------------------------------
  // imprint_instance_node

  /** Keys the instance layout manages itself; creator attributes must not use them. */
  const Reserved: set<string> :=
    {"instance_node", "instance_id", "families", "creator_attributes", "publish_attributes",
     "__creator_attributes_keys", "cbId"}

  /** The creator attributes kept as JSON: lists, tuples and dicts, in order. */
  function Containers(ca: Entries<Value>): (r: Entries<Value>)
    ensures forall k :: HasKey(r, k) ==> HasKey(ca, k)
    decreases |ca|
  {
    if |ca| == 0 then []
    else
      var init := ca[..|ca| - 1];
      var r := Containers(init) + (if IsContainer(ca[|ca| - 1].1) then [ca[|ca| - 1]] else []);
      HasKeyConcat(Containers(init), if IsContainer(ca[|ca| - 1].1) then [ca[|ca| - 1]] else []);
      HasKeyConcat(init, [ca[|ca| - 1]]);
      assert init + [ca[|ca| - 1]] == ca;
      r
  }

  /** The creator attributes flattened onto the node: every other value, in order. */
  function Scalars(ca: Entries<Value>): (r: Entries<Value>)
    ensures forall k :: HasKey(r, k) ==> HasKey(ca, k)
    decreases |ca|
  {
    if |ca| == 0 then []
    else
      var init := ca[..|ca| - 1];
      var r := Scalars(init) + (if IsContainer(ca[|ca| - 1].1) then [] else [ca[|ca| - 1]]);
      HasKeyConcat(Scalars(init), if IsContainer(ca[|ca| - 1].1) then [] else [ca[|ca| - 1]]);
      HasKeyConcat(init, [ca[|ca| - 1]]);
      assert init + [ca[|ca| - 1]] == ca;
      r
  }

  /** Keys distinct in the creator attributes stay distinct in each part. */
  lemma {:induction false} PartsUnique(ca: Entries<Value>)
    requires UniqueKeys(ca)
    ensures UniqueKeys(Containers(ca)) && UniqueKeys(Scalars(ca))
    decreases |ca|
  {
    if |ca| > 0 {
      var init := ca[..|ca| - 1];
      var x := ca[|ca| - 1];
      assert UniqueKeys(init);
      PartsUnique(init);
      assert !HasKey(init, x.0);
      if IsContainer(x.1) {
        UniqueAppend(Containers(init), x);
      } else {
        UniqueAppend(Scalars(init), x);
      }
    }
  }

  /**
   * The loop of `imprint_instance_node` that moves list, tuple and dict
   * values out of the creator attributes into the JSON dict.
   */
  method SplitCreatorAttributes(ca: Entries<Value>) returns (rest: Entries<Value>, json: Entries<Value>)
    requires UniqueKeys(ca)
    ensures rest == Scalars(ca) && json == Containers(ca)
  {
    rest := ca;
    json := [];
    var i := 0;
    while i < |ca|
      invariant 0 <= i <= |ca|
      invariant rest == Scalars(ca[..i]) + ca[i..]
      invariant json == Containers(ca[..i])
    {
      var (key, value) := ca[i];
      SplitStep(ca, i);
      if IsContainer(value) {
        rest := Remove(rest, key);
        json := Put(json, key, value);
      }
      i := i + 1;
    }
    FullPrefix(ca);
    assert ca[i..] == [];
    assert Scalars(ca) + [] == Scalars(ca);
  }

  /** One turn of the loop above, on the two parts and on what is left to visit. */
  lemma SplitStep(ca: Entries<Value>, i: nat)
    requires UniqueKeys(ca) && i < |ca|
    ensures IsContainer(ca[i].1) ==> Remove(Scalars(ca[..i]) + ca[i..], ca[i].0) == Scalars(ca[..i + 1]) + ca[i + 1..]
    ensures IsContainer(ca[i].1) ==> Put(Containers(ca[..i]), ca[i].0, ca[i].1) == Containers(ca[..i + 1])
    ensures !IsContainer(ca[i].1) ==> Scalars(ca[..i]) + ca[i..] == Scalars(ca[..i + 1]) + ca[i + 1..]
    ensures !IsContainer(ca[i].1) ==> Containers(ca[..i]) == Containers(ca[..i + 1])
  {
    TakeTake(ca, i);
    SplitAt(ca, i);
    Assoc(Scalars(ca[..i]), [ca[i]], ca[i + 1..]);
    if IsContainer(ca[i].1) {
      assert Scalars(ca[..i + 1]) == Scalars(ca[..i]) + [];
      RemoveMiddle(Scalars(ca[..i]), ca[i], ca[i + 1..]);
    } else {
      assert Scalars(ca[..i + 1]) == Scalars(ca[..i]) + [ca[i]];
      assert Containers(ca[..i + 1]) == Containers(ca[..i]) + [];
    }
  }

  /** The element at `i` of a dict with distinct keys has a key found neither before nor after it. */
  lemma SplitAt(ca: Entries<Value>, i: nat)
    requires UniqueKeys(ca) && i < |ca|
    ensures !HasKey(ca[..i], ca[i].0) && !HasKey(ca[i + 1..], ca[i].0)
    ensures ca[i..] == [ca[i]] + ca[i + 1..]
  {
    var after := ca[i + 1..];
    forall j | 0 <= j < |after|
      ensures after[j].0 != ca[i].0
    {
      assert after[j] == ca[i + 1 + j];
    }
  }

  /** How `imprint` stores a value: list and tuple become an enum set to its first entry, index 0. */
  function Stored(v: Value): Value {
    if v.VList? || v.VTuple? then VInt(0) else v
  }

  /** The values `imprint` accepts: bool, str, int, float, and lists or tuples of str (the enum names). */
  predicate Storable(v: Value) {
    match v
    case VBool(_) => true
    case VStr(_) => true
    case VInt(_) => true
    case VFloat(_) => true
    case VList(items) => forall j :: 0 <= j < |items| ==> items[j].VStr?
    case VTuple(items) => forall j :: 0 <= j < |items| ==> items[j].VStr?
    case _ => false
  }

  /**
   * `lib.imprint` after the existing attributes of the same names are
   * deleted: None when some value has an unsupported type (TypeError).
   */
  function Imprint(node: map<string, Value>, data: map<string, Value>): (r: Option<map<string, Value>>)
    ensures r.Some? <==> forall k :: k in data ==> Storable(data[k])
    ensures r.Some? ==> forall k :: k in r.value <==> k in node || k in data
    ensures r.Some? ==> forall k :: k in data ==> r.value[k] == Stored(data[k])
    ensures r.Some? ==> forall k :: k in node && k !in data ==> r.value[k] == node[k]
  {
    if exists k :: k in data && !Storable(data[k]) then None
    else Some((node - data.Keys) + map k | k in data :: Stored(data[k]))
  }

  /** The data `imprint_instance_node` hands to `imprint`; None when `creator_attributes` is not a dict. */
  function Flattened(data: map<string, Value>): Option<map<string, Value>> {
    var ca := GetAttr(data, "creator_attributes", VDict([]));
    if !ca.VDict? then None else Some(FlatOf(data, ca.entries))
  }

  /** `data.update(creator_attributes)` after the instance keys and the creator attributes are popped. */
  function Merged(data: map<string, Value>, scalars: Entries<Value>): map<string, Value> {
    (data - {"instance_node", "instance_id", "families", "creator_attributes"}) + ToMap(scalars)
  }

  /** The flattened layout for a dict of creator attributes. */
  function FlatOf(data: map<string, Value>, ca: Entries<Value>): map<string, Value> {
    var scalars := Scalars(ca);
    var d := Merged(data, scalars);
    var pa := GetAttr(d, "publish_attributes", VDict([]));
    d["publish_attributes" := VStr(Json.Dumps(pa))]
     ["creator_attributes" := VStr(Json.Dumps(VDict(Containers(ca))))]
     ["__creator_attributes_keys" := VStr(Join(Keys(scalars), ","))]
  }

  function ImprintSpec(node: map<string, Value>, data: map<string, Value>): Option<map<string, Value>> {
    match Flattened(data)
    case None => None
    case Some(d) => Imprint(node, d)
  }

  /** `imprint_instance_node`: the node's attributes afterwards, None when it raises. */
  method ImprintInstanceNode(node: map<string, Value>, data: map<string, Value>) returns (r: Option<map<string, Value>>)
    requires "creator_attributes" in data && data["creator_attributes"].VDict? ==> UniqueKeys(data["creator_attributes"].entries)
    ensures r == ImprintSpec(node, data)
  {
    var ca := GetAttr(data, "creator_attributes", VDict([]));
    if !ca.VDict? {
      return None;
    }
    var rest, json := SplitCreatorAttributes(ca.entries);
    var d := (data - {"instance_node", "instance_id", "families", "creator_attributes"}) + ToMap(rest);
    var pa := GetAttr(d, "publish_attributes", VDict([]));
    d := d["publish_attributes" := VStr(Json.Dumps(pa))];
    d := d["creator_attributes" := VStr(Json.Dumps(VDict(json)))];
    d := d["__creator_attributes_keys" := VStr(Join(Keys(rest), ","))];
    r := Imprint(node, d);
  }

  // ---------------------------------------------------------------------
  // read_instance_node

  /** `json.loads` on a stored attribute; None when it is not a string or not a document. */
  function LoadsAttr(v: Value): Option<Value> {
    if v.VStr? then Json.Loads(v.s) else None
  }

  /**
   * One step of the loop that moves a flattened key back into the creator
   * attributes (`data` holds every attribute but `creator_attributes`).
   * None when it raises: the key `creator_attributes` is popped before it is
   * indexed, and a decoded value that is not a dict takes no keys.
   */
  function MoveOne(data: map<string, Value>, ca: Value, key: string): Option<(map<string, Value>, Value)> {
    if key == "creator_attributes" then None
    else if key !in data then Some((data, ca))
    else if !ca.VDict? then None
    else Some((data - {key}, VDict(Put(ca.entries, key, data[key]))))
  }

  function MoveKeys(data: map<string, Value>, ca: Value, keys: seq<string>): Option<(map<string, Value>, Value)>
    decreases |keys|
  {
    if |keys| == 0 then Some((data, ca))
    else
      match MoveKeys(data, ca, keys[..|keys| - 1])
      case None => None
      case Some(p) => MoveOne(p.0, p.1, keys[|keys| - 1])
  }

  /** The data `read_instance_node` builds from the node's attributes; None when it raises. */
  function ReadSpec(node: string, attrs: map<string, Value>, families: seq<string>): Option<map<string, Value>> {
    var d := attrs - {"cbId"};
    var raw := GetAttr(d, "creator_attributes", VNone);
    var ca := if Truthy(raw) then LoadsAttr(raw) else Some(VDict([]));
    var ks := GetAttr(d, "__creator_attributes_keys", VStr(""));
    if ca.None? || !ks.VStr? then None
    else
      match MoveKeys(d - {"creator_attributes", "__creator_attributes_keys"}, ca.value, Split(ks.s, ','))
      case None => None
      case Some(p) => Finish(node, p.0["creator_attributes" := p.1], families)
  }

  /** The tail of `read_instance_node`: decode `publish_attributes`, name the node, add families. */
  function Finish(node: string, d: map<string, Value>, families: seq<string>): Option<map<string, Value>> {
    var pa := GetAttr(d, "publish_attributes", VNone);
    var decoded := if Truthy(pa) then LoadsAttr(pa) else Some(pa);
    if decoded.None? then None
    else
      var d := if Truthy(pa) then d["publish_attributes" := decoded.value] else d;
      var d := d["instance_node" := VStr(node)]["instance_id" := VStr(node)];
      Some(if |families| > 0 then d["families" := VList(seq(|families|, j requires 0 <= j < |families| => VStr(families[j])))] else d)
  }

  /** Once a key raises, the later keys change nothing. */
  lemma {:induction false} MoveKeysStuck(data: map<string, Value>, ca: Value, keys: seq<string>, i: nat)
    requires i <= |keys| && MoveKeys(data, ca, keys[..i]).None?
    ensures MoveKeys(data, ca, keys).None?
    decreases |keys| - i
  {
    if i == |keys| {
      assert keys[..i] == keys;
    } else {
      TakeTake(keys, i);
      MoveKeysStuck(data, ca, keys, i + 1);
    }
  }

  /** The loop of `read_instance_node` that moves the flattened keys back into the creator attributes. */
  method MoveCreatorKeys(data: map<string, Value>, ca: Value, keys: seq<string>) returns (r: Option<(map<string, Value>, Value)>)
    ensures r == MoveKeys(data, ca, keys)
  {
    var d, c := data, ca;
    var i := 0;
    while i < |keys|
      invariant 0 <= i <= |keys|
      invariant MoveKeys(data, ca, keys[..i]) == Some((d, c))
    {
      var key := keys[i];
      TakeTake(keys, i);
      if key == "creator_attributes" {
        MoveKeysStuck(data, ca, keys, i + 1);
        return None;
      }
      if key in d {
        if !c.VDict? {
          MoveKeysStuck(data, ca, keys, i + 1);
          return None;
        }
        c := VDict(Put(c.entries, key, d[key]));
        d := d - {key};
      }
      i := i + 1;
    }
    FullPrefix(keys);
    r := Some((d, c));
  }

  /** `read_instance_node`: the instance data read back from the node's attributes, None when it raises. */
  method ReadInstanceNode(node: string, attrs: map<string, Value>, families: seq<string>) returns (r: Option<map<string, Value>>)
    ensures r == ReadSpec(node, attrs, families)
  {
    var d := attrs - {"cbId"};
    var raw := GetAttr(d, "creator_attributes", VNone);
    var ca: Value := VDict([]);
    if Truthy(raw) {
      var loaded := LoadsAttr(raw);
      if loaded.None? {
        return None;
      }
      ca := loaded.value;
    }
    var ks := GetAttr(d, "__creator_attributes_keys", VStr(""));
    if !ks.VStr? {
      return None;
    }
    d := d - {"creator_attributes", "__creator_attributes_keys"};
    var moved := MoveCreatorKeys(d, ca, Split(ks.s, ','));
    if moved.None? {
      return None;
    }
    d, ca := moved.value.0, moved.value.1;
    d := d["creator_attributes" := ca];
    var pa := GetAttr(d, "publish_attributes", VNone);
    if Truthy(pa) {
      var loaded := LoadsAttr(pa);
      if loaded.None? {
        return None;
      }
      d := d["publish_attributes" := loaded.value];
    }
    d := d["instance_node" := VStr(node)]["instance_id" := VStr(node)];
    if |families| > 0 {
      d := d["families" := VList(seq(|families|, j requires 0 <= j < |families| => VStr(families[j])))];
    }
    r := Some(d);
  }

  // ---------------------------------------------------------------------
  // The round trip

  /** Every container entry and every scalar entry is an entry of the creator attributes. */
  lemma {:induction false} PartsFrom(ca: Entries<Value>)
    ensures forall i :: 0 <= i < |Containers(ca)| ==> IsContainer(Containers(ca)[i].1) && Containers(ca)[i] in ca
    ensures forall i :: 0 <= i < |Scalars(ca)| ==> !IsContainer(Scalars(ca)[i].1) && Scalars(ca)[i] in ca
    decreases |ca|
  {
    if |ca| > 0 {
      var init := ca[..|ca| - 1];
      PartsFrom(init);
      assert forall x :: x in init ==> x in ca;
    }
  }

  /** No key is both a container key and a scalar key. */
  lemma PartsDisjoint(ca: Entries<Value>)
    requires UniqueKeys(ca)
    ensures forall k :: HasKey(Containers(ca), k) ==> !HasKey(Scalars(ca), k)
  {
    PartsFrom(ca);
  }

  /** The keys of a dict, as a set. */
  function KeySet(s: Entries<Value>): set<string> {
    set i | 0 <= i < |s| :: s[i].0
  }

  /**
   * Reading back the flattened keys moves each of them, in order, to the
   * end of the creator attributes.
   */
  lemma {:induction false} MoveAll(d: map<string, Value>, base: Entries<Value>, s: Entries<Value>)
    requires UniqueKeys(base + s)
    requires forall i :: 0 <= i < |s| ==> s[i].0 in d && d[s[i].0] == s[i].1 && s[i].0 != "creator_attributes"
    ensures MoveKeys(d, VDict(base), Keys(s)) == Some((d - KeySet(s), VDict(base + s)))
    decreases |s|
  {
    if |s| == 0 {
      assert d - KeySet(s) == d;
      assert base + s == base;
    } else {
      var init, x := s[..|s| - 1], s[|s| - 1];
      assert Keys(s)[..|s| - 1] == Keys(init);
      LastOfConcat(base, s);
      MoveAll(d, base, init);
      assert !HasKey(base + init, x.0) by {
        forall i | 0 <= i < |base + init| ensures (base + init)[i].0 != x.0 {
          assert (base + init)[i] == (base + s)[i] && x == (base + s)[|base + s| - 1];
        }
      }
      assert x.0 !in KeySet(init) by {
        forall i | 0 <= i < |init| ensures init[i].0 != x.0 {
          assert init[i] == (base + s)[|base| + i] && x == (base + s)[|base + s| - 1];
        }
      }
      assert KeySet(s) == KeySet(init) + {x.0};
      assert base + init + [x] == base + s;
      assert Keys(s)[|s| - 1] == x.0;
      assert MoveKeys(d, VDict(base), Keys(s)) == MoveOne(d - KeySet(init), VDict(base + init), x.0);
      assert x.0 in d - KeySet(init) && (d - KeySet(init))[x.0] == x.1;
      assert Put(base + init, x.0, x.1) == base + init + [x];
      assert (d - KeySet(init)) - {x.0} == d - KeySet(s);
    }
  }

  /** What the round trip needs of the creator attributes. */
  predicate FlatReady(ca: Entries<Value>, data: map<string, Value>) {
    UniqueKeys(ca)
    && forall i :: 0 <= i < |ca| ==>
         if IsContainer(ca[i].1) then Json.Encodable(ca[i].1)
         else Storable(ca[i].1) && ca[i].0 !in data && ca[i].0 !in Reserved && ',' !in ca[i].0
  }

  /**
   * What the round trip needs of the instance data: a dict of creator
   * attributes whose flattened keys clash with nothing, values `imprint`
   * accepts, JSON-encodable publish attributes, and no empty attribute name.
   */
  predicate Imprintable(prior: map<string, Value>, data: map<string, Value>) {
    && "creator_attributes" in data && data["creator_attributes"].VDict?
    && FlatReady(data["creator_attributes"].entries, data)
    && (forall k :: k in data && k !in Reserved - {"cbId"} ==> Storable(data[k]))
    && Json.Encodable(GetAttr(data, "publish_attributes", VDict([])))
    && "" !in prior && "" !in data
  }

  /** The scalar creator attributes' keys: none reserved, none a top-level key, none holding `,`. */
  lemma ScalarKeys(ca: Entries<Value>, data: map<string, Value>)
    requires FlatReady(ca, data)
    ensures forall k :: HasKey(Scalars(ca), k) ==> k !in data && k !in Reserved && ',' !in k
    ensures forall i :: 0 <= i < |Scalars(ca)| ==> Storable(Scalars(ca)[i].1) && !IsContainer(Scalars(ca)[i].1)
    ensures forall i :: 0 <= i < |Containers(ca)| ==> Json.Encodable(Containers(ca)[i].1)
    ensures UniqueKeys(Scalars(ca)) && UniqueKeys(Containers(ca))
  {
    PartsFrom(ca);
    PartsUnique(ca);
  }

  /** A dict with distinct keys maps each of its keys to that entry's value. */
  lemma ToMapAt(s: Entries<Value>, i: nat)
    requires UniqueKeys(s) && i < |s|
    ensures s[i].0 in ToMap(s) && ToMap(s)[s[i].0] == s[i].1
  {
    assert HasKey(s, s[i].0);
  }

  /**
   * What the node holds after `imprint_instance_node` (`stored` applied to
   * the caller's top-level values: the flattened data itself has them as
   * given, the node as `imprint` stores them).
   */
  predicate NodeHolds(node: map<string, Value>, ca: Entries<Value>, data: map<string, Value>, stored: bool) {
    && "creator_attributes" in node && node["creator_attributes"] == VStr(Json.Dumps(VDict(Containers(ca))))
    && "__creator_attributes_keys" in node && node["__creator_attributes_keys"] == VStr(Join(Keys(Scalars(ca)), ","))
    && "publish_attributes" in node && node["publish_attributes"] == VStr(Json.Dumps(GetAttr(data, "publish_attributes", VDict([]))))
    && (forall i :: 0 <= i < |Scalars(ca)| ==> Scalars(ca)[i].0 in node && node[Scalars(ca)[i].0] == Scalars(ca)[i].1)
    && (forall k :: k in data && k !in Reserved ==> k in node && node[k] == if stored then Stored(data[k]) else data[k])
  }

  /** The flattened data holds the layout: JSON of the containers, the scalar keys, the scalars and the rest of the data. */
  lemma FlatLayout(prior: map<string, Value>, data: map<string, Value>)
    requires Imprintable(prior, data)
    ensures NodeHolds(FlatOf(data, data["creator_attributes"].entries), data["creator_attributes"].entries, data, false)
  {
    var ca := data["creator_attributes"].entries;
    var sc := Scalars(ca);
    ScalarKeys(ca, data);
    var m := ToMap(sc);
    var f := FlatOf(data, ca);
    assert "publish_attributes" !in m;
    forall i | 0 <= i < |sc| ensures sc[i].0 in f && f[sc[i].0] == sc[i].1 {
      ToMapAt(sc, i);
      assert HasKey(sc, sc[i].0);
    }
  }

  /** Every value of the flattened data is one `imprint` accepts. */
  lemma FlatStorable(prior: map<string, Value>, data: map<string, Value>)
    requires Imprintable(prior, data)
    ensures forall k :: k in FlatOf(data, data["creator_attributes"].entries) ==> Storable(FlatOf(data, data["creator_attributes"].entries)[k])
  {
    var ca := data["creator_attributes"].entries;
    var d := Merged(data, Scalars(ca));
    var f := FlatOf(data, ca);
    MergedStorable(prior, data);
    forall k | k in f ensures Storable(f[k]) {
      if k !in {"publish_attributes", "creator_attributes", "__creator_attributes_keys"} {
        assert k in d && f[k] == d[k];
      }
    }
  }

  predicate StorableBut(d: map<string, Value>, k1: string, k2: string) {
    forall k :: k in d && k != k1 && k != k2 ==> Storable(d[k])
  }

  /** The merged values are storable, but for the two keys the layout overwrites. */
  lemma MergedStorable(prior: map<string, Value>, data: map<string, Value>)
    requires Imprintable(prior, data)
    ensures StorableBut(Merged(data, Scalars(data["creator_attributes"].entries)), "publish_attributes", "__creator_attributes_keys")
  {
    var ca := data["creator_attributes"].entries;
    var sc := Scalars(ca);
    ScalarKeys(ca, data);
    var m := ToMap(sc);
    forall k | k in m ensures Storable(m[k]) {
      var i :| 0 <= i < |sc| && sc[i].0 == k;
      ToMapAt(sc, i);
    }
  }

  /** `imprint_instance_node` succeeds on such data and leaves the node holding the flattened layout. */
  lemma ImprintedNode(prior: map<string, Value>, data: map<string, Value>)
    requires Imprintable(prior, data)
    ensures ImprintSpec(prior, data).Some?
    ensures NodeHolds(ImprintSpec(prior, data).value, data["creator_attributes"].entries, data, true)
  {
    FlatLayout(prior, data);
    FlatStorable(prior, data);
    ScalarKeys(data["creator_attributes"].entries, data);
  }

  /** Without flattened scalars the imprinted node has no attribute with an empty name. */
  lemma ImprintedNoEmptyKey(prior: map<string, Value>, data: map<string, Value>)
    requires Imprintable(prior, data)
    ensures ImprintSpec(prior, data).Some?
    ensures |Scalars(data["creator_attributes"].entries)| == 0 ==> "" !in ImprintSpec(prior, data).value
  {
    FlatLayout(prior, data);
    FlatStorable(prior, data);
    ScalarKeys(data["creator_attributes"].entries, data);
  }

  /** The attributes left after reading the creator attributes back: the node's, less the moved keys. */
  function Moved(node: map<string, Value>, ca: Entries<Value>): map<string, Value> {
    (node - {"cbId", "creator_attributes", "__creator_attributes_keys"} - KeySet(Scalars(ca)))
      ["creator_attributes" := VDict(Json.NormEntries(Containers(ca)) + Scalars(ca))]
  }

  /** Reading the creator attributes back: the JSON part decoded, then every flattened key moved into it. */
  lemma ReadCreatorAttributes(name: string, node: map<string, Value>, ca: Entries<Value>, data: map<string, Value>, families: seq<string>)
    requires FlatReady(ca, data) && NodeHolds(node, ca, data, true)
    requires |Scalars(ca)| == 0 ==> "" !in node
    ensures ReadSpec(name, node, families) == Finish(name, Moved(node, ca), families)
  {
    var d := node - {"cbId"};
    DecodeContainers(node, ca, data);
    assert GetAttr(d, "__creator_attributes_keys", VStr("")) == VStr(Join(Keys(Scalars(ca)), ","));
    KeysBack(ca, data);
    MoveBack(node, ca, data);
    assert d - {"creator_attributes", "__creator_attributes_keys"} == node - {"cbId", "creator_attributes", "__creator_attributes_keys"};
  }

  /** The stored JSON decodes to the container attributes, tuples as lists. */
  lemma DecodeContainers(node: map<string, Value>, ca: Entries<Value>, data: map<string, Value>)
    requires FlatReady(ca, data) && NodeHolds(node, ca, data, true)
    ensures var raw := GetAttr(node - {"cbId"}, "creator_attributes", VNone);
      Truthy(raw) && LoadsAttr(raw) == Some(VDict(Json.NormEntries(Containers(ca))))
  {
    var c := Containers(ca);
    ScalarKeys(ca, data);
    Json.DumpsStart(VDict(c));
    Json.DumpsLoads(VDict(c));
  }

  /** The stored key list splits back into the scalar keys (one empty name when there are none). */
  lemma KeysBack(ca: Entries<Value>, data: map<string, Value>)
    requires FlatReady(ca, data)
    ensures Split(Join(Keys(Scalars(ca)), ","), ',') == if |Scalars(ca)| == 0 then [""] else Keys(Scalars(ca))
  {
    ScalarKeys(ca, data);
    if |Scalars(ca)| > 0 {
      SplitJoin(Keys(Scalars(ca)), ',');
    }
  }

  /** Moving the scalar keys into the decoded containers. */
  lemma MoveBack(node: map<string, Value>, ca: Entries<Value>, data: map<string, Value>)
    requires FlatReady(ca, data) && NodeHolds(node, ca, data, true)
    requires |Scalars(ca)| == 0 ==> "" !in node
    ensures var d1 := node - {"cbId", "creator_attributes", "__creator_attributes_keys"};
      var keys := if |Scalars(ca)| == 0 then [""] else Keys(Scalars(ca));
      MoveKeys(d1, VDict(Json.NormEntries(Containers(ca))), keys)
        == Some((d1 - KeySet(Scalars(ca)), VDict(Json.NormEntries(Containers(ca)) + Scalars(ca))))
  {
    var c, sc := Containers(ca), Scalars(ca);
    var d1 := node - {"cbId", "creator_attributes", "__creator_attributes_keys"};
    var base := Json.NormEntries(c);
    if |sc| == 0 {
      assert MoveKeys(d1, VDict(base), [""]) == MoveOne(d1, VDict(base), "");
      assert KeySet(sc) == {};
      assert d1 - KeySet(sc) == d1;
      assert base + sc == base;
    } else {
      ScalarKeys(ca, data);
      PartsDisjoint(ca);
      assert UniqueKeys(base) by {
        assert forall i :: 0 <= i < |base| ==> base[i].0 == c[i].0;
      }
      assert forall k :: HasKey(base, k) ==> HasKey(c, k) by {
        forall k | HasKey(base, k) ensures HasKey(c, k) {
          var i :| 0 <= i < |base| && base[i].0 == k;
          assert c[i].0 == k;
        }
      }
      UniqueConcat(base, sc);
      MoveAll(d1, base, sc);
    }
  }

  /** The tail of the read decodes the publish attributes and names the node, leaving every other key alone. */
  lemma FinishBack(name: string, d: map<string, Value>, families: seq<string>, pa: Value)
    requires "publish_attributes" in d && d["publish_attributes"] == VStr(Json.Dumps(pa)) && Json.Encodable(pa)
    ensures Finish(name, d, families).Some?
    ensures var r := Finish(name, d, families).value;
      && "publish_attributes" in r && r["publish_attributes"] == Json.Norm(pa)
      && "instance_node" in r && r["instance_node"] == VStr(name)
      && "instance_id" in r && r["instance_id"] == VStr(name)
      && ("creator_attributes" in d ==> "creator_attributes" in r && r["creator_attributes"] == d["creator_attributes"])
      && forall k :: k in d && k !in Reserved ==> k in r && r[k] == d[k]
  {
    Json.DumpsStart(pa);
    Json.DumpsLoads(pa);
  }

  /**
   * The round trip of `imprint_instance_node` and `read_instance_node`:
   * the creator attributes come back with the JSON-kept values first (tuples
   * as lists) and the flattened ones after them in their order, the publish
   * attributes come back decoded, every other top-level value comes back as
   * `imprint` stored it, and the node name is the instance node and id.
   */
  lemma RoundTrip(name: string, prior: map<string, Value>, data: map<string, Value>, families: seq<string>)
    requires Imprintable(prior, data)
    ensures ImprintSpec(prior, data).Some?
    ensures var ca := data["creator_attributes"].entries;
      var r := ReadSpec(name, ImprintSpec(prior, data).value, families);
      && r.Some?
      && "creator_attributes" in r.value
      && r.value["creator_attributes"] == VDict(Json.NormEntries(Containers(ca)) + Scalars(ca))
      && "publish_attributes" in r.value
      && r.value["publish_attributes"] == Json.Norm(GetAttr(data, "publish_attributes", VDict([])))
      && (forall k :: k in data && k !in Reserved ==> k in r.value && r.value[k] == Stored(data[k]))
      && "instance_node" in r.value && r.value["instance_node"] == VStr(name)
      && "instance_id" in r.value && r.value["instance_id"] == VStr(name)
  {
    var ca := data["creator_attributes"].entries;
    ImprintedNode(prior, data);
    ImprintedNoEmptyKey(prior, data);
    var node := ImprintSpec(prior, data).value;
    ReadCreatorAttributes(name, node, ca, data, families);
    MovedHolds(node, ca, data);
    FinishBack(name, Moved(node, ca), families, GetAttr(data, "publish_attributes", VDict([])));
  }

  /** After the move, the publish attributes and every other top-level value are still the node's. */
  lemma MovedHolds(node: map<string, Value>, ca: Entries<Value>, data: map<string, Value>)
    requires FlatReady(ca, data) && NodeHolds(node, ca, data, true)
    ensures var d := Moved(node, ca);
      && "creator_attributes" in d && d["creator_attributes"] == VDict(Json.NormEntries(Containers(ca)) + Scalars(ca))
      && "publish_attributes" in d && d["publish_attributes"] == node["publish_attributes"]
      && forall k :: k in data && k !in Reserved ==> k in d && d[k] == Stored(data[k])
  {
    ScalarKeys(ca, data);
    assert "publish_attributes" !in KeySet(Scalars(ca));
    forall k | k in data && k !in Reserved ensures k !in KeySet(Scalars(ca)) {
      assert k !in KeySet(Scalars(ca));
    }
  }

  /** With only scalar creator attributes the round trip gives them back exactly. */
  lemma ScalarRoundTrip(name: string, prior: map<string, Value>, data: map<string, Value>, families: seq<string>)
    requires Imprintable(prior, data)
    requires forall i :: 0 <= i < |data["creator_attributes"].entries| ==> !IsContainer(data["creator_attributes"].entries[i].1)
    ensures ImprintSpec(prior, data).Some?
    ensures var r := ReadSpec(name, ImprintSpec(prior, data).value, families);
      r.Some? && r.value["creator_attributes"] == data["creator_attributes"]
  {
    RoundTrip(name, prior, data, families);
    AllScalars(data["creator_attributes"].entries);
  }

  lemma {:induction false} AllScalars(ca: Entries<Value>)
    requires forall i :: 0 <= i < |ca| ==> !IsContainer(ca[i].1)
    ensures Scalars(ca) == ca && Containers(ca) == []
    decreases |ca|
  {
    if |ca| > 0 {
      AllScalars(ca[..|ca| - 1]);
      assert ca[..|ca| - 1] + [ca[|ca| - 1]] == ca;
    }
  }

  // ---------------------------------------------------------------------
  // get_load_color_for_product_type

  /** A loaded product's colour: none, or red, green and blue (`scaled`: ints divided by 255). */
  datatype LoadColor = NoColor | Rgb(red: Value, green: Value, blue: Value, scaled: bool)

  /** `get_load_color_for_product_type` on the settings' colour table. */
  function LoadColorFor(productType: string, colors: Entries<Value>): (r: Result<LoadColor>)
    ensures r == Ok(NoColor) <==> !Truthy(GetOr(colors, productType, VNone))
    ensures r.Ok? && r.value.Rgb? ==>
              exists items :: (Items(GetOr(colors, productType, VNone)) == Some(items)
                && (|items| == 3 || |items| == 4) && [r.value.red, r.value.green, r.value.blue] == items[..3])
    ensures r.Err? <==>
              (Truthy(GetOr(colors, productType, VNone))
                && (Items(GetOr(colors, productType, VNone)).None? || |Items(GetOr(colors, productType, VNone)).value| !in {3, 4}))
  {
    var color := GetOr(colors, productType, VNone);
    if !Truthy(color) then Ok(NoColor)
    else
      match Items(color)
      case None => Err("TypeError")
      case Some(items) =>
        if |items| == 3 || |items| == 4 then
          Ok(Rgb(items[0], items[1], items[2], items[0].VInt? || items[0].VBool?))
        else Err("ValueError: Invalid color definition")
  }

  /** A fourth component is dropped: `[r, g, b, a]` gives the colour of `[r, g, b]`. */
  lemma LoadColorDropsAlpha(productType: string, colors: Entries<Value>, rgb: seq<Value>, alpha: Value)
    requires |rgb| == 3
    ensures LoadColorFor(productType, Put(colors, productType, VList(rgb + [alpha])))
         == LoadColorFor(productType, Put(colors, productType, VList(rgb)))
  {
    GetPut(colors, productType, VList(rgb + [alpha]), productType);
    GetPut(colors, productType, VList(rgb), productType);
    assert (rgb + [alpha])[..3] == rgb;
  }

  // ---------------------------------------------------------------------
  // get_custom_namespace_and_group

  /** The group name, the namespace and the loader options `get_custom_namespace_and_group` returns. */
  datatype Naming = Naming(group: string, namespace: string, options: map<string, Value>)

  /**
   * `Loader.get_custom_namespace_and_group` for one loader's templates;
   * `format` fills a template with the folder and product names.
   */
  function CustomNamespaceAndGroup(namespaceTemplate: string, groupTemplate: string,
                                   options: map<string, Value>, format: string -> string): (r: Result<Naming>)
    ensures r.Err? <==> namespaceTemplate == ""
    ensures r.Ok? ==>
              ("attach_to_root" in r.value.options
                && (r.value.options["attach_to_root"] == VBool(false) <==> groupTemplate == ""))
    ensures r.Ok? ==>
              forall k :: k != "attach_to_root" ==>
                ((k in r.value.options <==> k in options) && (k in options ==> r.value.options[k] == options[k]))
  {
    var options := options["attach_to_root" := VBool(true)];
    if namespaceTemplate == "" then Err("LoadError: No namespace specified in Maya ReferenceLoader settings")
    else
      var options := if groupTemplate == "" then options["attach_to_root" := VBool(false)] else options;
      Ok(Naming(format(groupTemplate), format(namespaceTemplate), options))
  }
}

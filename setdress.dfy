/**
 * Helpers of the set dress package loader: placing a node path inside a
 * namespace, indexing the instances of the scene build data by namespace,
 * and deciding whether a loaded representation may be switched to another.
 */
module SetDress {
  import opened Strs
  import opened PyData

  // ---------------------------------------------------------------------
  // to_namespace

  /** `"|ns:".join(node.split("|"))`: every component after a `|` gains `ns:`. */
  function ToNamespace(node: string, namespace: string): string {
    Join(Split(node, '|'), "|" + namespace + ":")
  }

  /** The first part kept as is, every later part prefixed with `pre`. */
  function PrefixLater(parts: seq<string>, pre: string): (r: seq<string>)
    requires |parts| >= 1
    ensures |r| == |parts| && r[0] == parts[0]
    ensures forall i :: 1 <= i < |parts| ==> r[i] == pre + parts[i]
  {
    [parts[0]] + seq(|parts| - 1, i requires 0 <= i < |parts| - 1 => pre + parts[i + 1])
  }

  lemma PrefixLaterSnoc(parts: seq<string>, x: string, pre: string)
    requires |parts| >= 1
    ensures PrefixLater(parts + [x], pre) == PrefixLater(parts, pre) + [pre + x]
  {
  }

  /** Joining with `c` followed by `t` is joining with `c` after prefixing the later parts with `t`. */
  lemma {:induction false} JoinLongSep(parts: seq<string>, c: char, t: string)
    requires |parts| >= 1
    ensures Join(parts, [c] + t) == Join(PrefixLater(parts, t), [c])
    decreases |parts|
  {
    if |parts| > 1 {
      var init, x := parts[..|parts| - 1], parts[|parts| - 1];
      assert parts == init + [x];
      var j := Join(PrefixLater(init, t), [c]);
      calc {
        Join(parts, [c] + t);
        { JoinSnoc(init, x, [c] + t); }
        Join(init, [c] + t) + ([c] + t) + x;
        { JoinLongSep(init, c, t); }
        j + ([c] + t) + x;
        { Regroup(j, [c], t, x); }
        j + [c] + (t + x);
        { JoinSnoc(PrefixLater(init, t), t + x, [c]); }
        Join(PrefixLater(init, t) + [t + x], [c]);
        { PrefixLaterSnoc(init, x, t); }
        Join(PrefixLater(parts, t), [c]);
      }
    }
  }

  /**
   * Read back by components, the namespaced path is the original path with
   * `ns:` put in front of every component that follows a `|`; the text
   * before the first `|` (all of a relative name) is left untouched.
   */
  lemma ToNamespaceParts(node: string, namespace: string)
    requires '|' !in namespace
    ensures Split(ToNamespace(node, namespace), '|') == PrefixLater(Split(node, '|'), namespace + ":")
  {
    var parts := Split(node, '|');
    var pre := namespace + ":";
    JoinLongSep(parts, '|', pre);
    assert "|" + namespace + ":" == ['|'] + pre;
    SplitPartsFree(node, '|');
    var q := PrefixLater(parts, pre);
    forall i | 0 <= i < |q|
      ensures '|' !in q[i]
    {
      if i > 0 {
        assert q[i] == pre + parts[i];
      }
    }
    SplitJoin(q, '|');
  }

  /** A name without `|` is returned unchanged. */
  lemma ToNamespaceRelative(node: string, namespace: string)
    requires '|' !in node
    ensures ToNamespace(node, namespace) == node
  {
    SplitFree(node, '|');
  }

  /** The absolute path `|a|b` becomes `|ns:a|ns:b`. */
  lemma ToNamespaceAbsolute(a: string, b: string, namespace: string)
    requires '|' !in a && '|' !in b && '|' !in namespace
    ensures ToNamespace("|" + a + "|" + b, namespace) == "|" + namespace + ":" + a + "|" + namespace + ":" + b
  {
    var sep := "|" + namespace + ":";
    assert "|" + a + "|" + b == "" + ['|'] + (a + ['|'] + b);
    SplitPrefix("", a + ['|'] + b, '|');
    SplitPrefix(a, b, '|');
    SplitFree(b, '|');
    assert Split("|" + a + "|" + b, '|') == ["", a, b];
    assert ["", a, b][1..] == [a, b] && [a, b][1..] == [b];
    assert Join([b], sep) == b;
    assert Join([a, b], sep) == a + sep + b;
    assert Join(["", a, b], sep) == "" + sep + (a + sep + b);
  }

  // ---------------------------------------------------------------------
  // _instances_by_namespace

  /** The scene build data: representation id to the list of its instances. */
  type BuildData = Entries<seq<Entries<Value>>>

  /** Whether Python can use the value as a dict key. */
  predicate Hashable(v: Value) {
    match v
    case VList(_) => false
    case VDict(_) => false
    case VTuple(items) => forall i :: 0 <= i < |items| ==> Hashable(items[i])
    case _ => true
  }

  /** `instance['representation'] = representation_id` on a copy. */
  function Tag(rid: string, instance: Entries<Value>): (r: Entries<Value>)
    ensures Get(r, "representation") == Some(VStr(rid))
    ensures forall k :: k != "representation" ==> Get(r, k) == Get(instance, k)
  {
    var r := Put(instance, "representation", VStr(rid));
    GetPut(instance, "representation", VStr(rid), "representation");
    forall k | k != "representation"
      ensures Get(r, k) == Get(instance, k)
    {
      GetPut(instance, "representation", VStr(rid), k);
    }
    r
  }

  /** `instance['namespace']` used as a dict key. */
  function Namespace(instance: Entries<Value>): (r: Result<Value>)
    ensures r.Ok? <==> Get(instance, "namespace").Some? && Hashable(Get(instance, "namespace").value)
    ensures r.Ok? ==> Get(instance, "namespace") == Some(r.value)
  {
    match Get(instance, "namespace")
    case None => Err("KeyError: 'namespace'")
    case Some(v) => if Hashable(v) then Ok(v) else Err("TypeError: unhashable type")
  }

  /** The tagged copies of one representation's instances. */
  function TagAll(rid: string, instances: seq<Entries<Value>>): (r: seq<Entries<Value>>)
    ensures |r| == |instances|
    ensures forall k :: 0 <= k < |r| ==> r[k] == Tag(rid, instances[k])
  {
    seq(|instances|, k requires 0 <= k < |instances| => Tag(rid, instances[k]))
  }

  /** The tagged copies of all instances, in iteration order. */
  function Tagged(data: BuildData): seq<Entries<Value>>
    decreases |data|
  {
    if |data| == 0 then []
    else
      var last := data[|data| - 1];
      Tagged(data[..|data| - 1]) + TagAll(last.0, last.1)
  }

  /** Filling the result dict: each instance lands under its namespace, replacing an earlier one. */
  function Index(items: seq<Entries<Value>>): Result<map<Value, Entries<Value>>>
    decreases |items|
  {
    if |items| == 0 then Ok(map[])
    else
      var last := items[|items| - 1];
      match Index(items[..|items| - 1])
      case Err(e) => Err(e)
      case Ok(m) =>
        match Namespace(last)
        case Err(e) => Err(e)
        case Ok(ns) => Ok(m[ns := last])
  }

  /** `_instances_by_namespace(data)`. */
  function InstancesSpec(data: BuildData): Result<map<Value, Entries<Value>>> {
    Index(Tagged(data))
  }

  lemma IndexSnoc(items: seq<Entries<Value>>, x: Entries<Value>)
    ensures Index(items + [x]) == match Index(items)
      case Err(e) => Err(e)
      case Ok(m) => (match Namespace(x) case Err(e) => Err(e) case Ok(ns) => Ok(m[ns := x]))
  {
    assert (items + [x])[..|items|] == items;
  }

  /** Once an instance raises, nothing after it changes the outcome. */
  lemma {:induction false} IndexErrStops(p: seq<Entries<Value>>, q: seq<Entries<Value>>)
    requires Index(p).Err?
    ensures Index(p + q) == Index(p)
    decreases |q|
  {
    if |q| == 0 {
      assert p + q == p;
    } else {
      LastOfConcat(p, q);
      IndexErrStops(p, q[..|q| - 1]);
    }
  }

  lemma {:induction false} TaggedConcat(a: BuildData, b: BuildData)
    ensures Tagged(a + b) == Tagged(a) + Tagged(b)
    decreases |b|
  {
    if |b| == 0 {
      assert a + b == a;
    } else {
      LastOfConcat(a, b);
      TaggedConcat(a, b[..|b| - 1]);
      var last := b[|b| - 1];
      Assoc(Tagged(a), Tagged(b[..|b| - 1]), TagAll(last.0, last.1));
    }
  }

  lemma TaggedOne(x: (string, seq<Entries<Value>>))
    ensures Tagged([x]) == TagAll(x.0, x.1)
  {
    assert [x][..0] == [];
  }

  lemma TagAllConcat(rid: string, a: seq<Entries<Value>>, b: seq<Entries<Value>>)
    ensures TagAll(rid, a + b) == TagAll(rid, a) + TagAll(rid, b)
  {
  }

  lemma TagAllAround(rid: string, xs: seq<Entries<Value>>, j: nat)
    requires j < |xs|
    ensures TagAll(rid, xs) == TagAll(rid, xs[..j]) + ([Tag(rid, xs[j])] + TagAll(rid, xs[j + 1..]))
  {
    var ys := [xs[j]] + xs[j + 1..];
    calc {
      TagAll(rid, xs);
      { Around(xs, j); }
      TagAll(rid, xs[..j] + ys);
      { TagAllConcat(rid, xs[..j], ys); }
      TagAll(rid, xs[..j]) + TagAll(rid, ys);
      { TagAllConcat(rid, [xs[j]], xs[j + 1..]); }
      TagAll(rid, xs[..j]) + (TagAll(rid, [xs[j]]) + TagAll(rid, xs[j + 1..]));
      { assert TagAll(rid, [xs[j]]) == [Tag(rid, xs[j])]; }
      TagAll(rid, xs[..j]) + ([Tag(rid, xs[j])] + TagAll(rid, xs[j + 1..]));
    }
  }

  lemma TaggedAroundEntry(data: BuildData, i: nat)
    requires i < |data|
    ensures Tagged(data) == Tagged(data[..i]) + (TagAll(data[i].0, data[i].1) + Tagged(data[i + 1..]))
  {
    Around(data, i);
    TaggedConcat(data[..i], [data[i]] + data[i + 1..]);
    TaggedConcat([data[i]], data[i + 1..]);
    TaggedOne(data[i]);
  }

  /** The whole tagged list around the instance at position `j` of entry `i`. */
  lemma TaggedAround(data: BuildData, i: nat, j: nat)
    requires i < |data| && j < |data[i].1|
    ensures Tagged(data) == (Tagged(data[..i]) + TagAll(data[i].0, data[i].1[..j]) + [Tag(data[i].0, data[i].1[j])])
                            + (TagAll(data[i].0, data[i].1[j + 1..]) + Tagged(data[i + 1..]))
  {
    var rid, xs := data[i].0, data[i].1;
    TaggedAroundEntry(data, i);
    TagAllAround(rid, xs, j);
    var a, b, x, c, d := Tagged(data[..i]), TagAll(rid, xs[..j]), [Tag(rid, xs[j])], TagAll(rid, xs[j + 1..]), Tagged(data[i + 1..]);
    calc {
      a + (b + (x + c) + d);
      { Assoc(b, x + c, d); Assoc(x, c, d); }
      a + (b + (x + (c + d)));
      { Assoc(a, b, x + (c + d)); Assoc(a + b, x, c + d); }
      (a + b + x) + (c + d);
    }
  }

  /** The loop below stops at the first instance that raises; so does the specification. */
  lemma RaiseStops(data: BuildData, i: nat, j: nat, e: string)
    requires i < |data| && j < |data[i].1|
    requires Index(Tagged(data[..i]) + TagAll(data[i].0, data[i].1[..j])).Ok?
    requires Namespace(Tag(data[i].0, data[i].1[j])) == Err(e)
    ensures InstancesSpec(data) == Err(e)
  {
    var p := Tagged(data[..i]) + TagAll(data[i].0, data[i].1[..j]);
    var x := Tag(data[i].0, data[i].1[j]);
    IndexSnoc(p, x);
    TaggedAround(data, i, j);
    IndexErrStops(p + [x], TagAll(data[i].0, data[i].1[j + 1..]) + Tagged(data[i + 1..]));
  }

  lemma InnerStep(data: BuildData, i: nat, j: nat)
    requires i < |data| && j < |data[i].1|
    ensures Tagged(data[..i]) + TagAll(data[i].0, data[i].1[..j + 1])
         == (Tagged(data[..i]) + TagAll(data[i].0, data[i].1[..j])) + [Tag(data[i].0, data[i].1[j])]
  {
    var rid, xs := data[i].0, data[i].1;
    assert TagAll(rid, xs[..j + 1]) == TagAll(rid, xs[..j]) + [Tag(rid, xs[j])];
  }

  lemma InnerStart(data: BuildData, i: nat)
    requires i < |data|
    ensures Tagged(data[..i]) + TagAll(data[i].0, data[i].1[..0]) == Tagged(data[..i])
  {
    assert TagAll(data[i].0, data[i].1[..0]) == [];
  }

  lemma OuterStep(data: BuildData, i: nat)
    requires i < |data|
    ensures Tagged(data[..i + 1]) == Tagged(data[..i]) + TagAll(data[i].0, data[i].1[..|data[i].1|])
  {
    TakeTake(data, i);
    FullPrefix(data[i].1);
  }

  /** The loops of `_instances_by_namespace`, proved to compute `InstancesSpec`. */
  method InstancesByNamespace(data: BuildData) returns (r: Result<map<Value, Entries<Value>>>)
    ensures r == InstancesSpec(data)
  {
    var result: map<Value, Entries<Value>> := map[];
    var i := 0;
    while i < |data|
      invariant 0 <= i <= |data|
      invariant Index(Tagged(data[..i])) == Ok(result)
    {
      var rid, instances := data[i].0, data[i].1;
      var j := 0;
      InnerStart(data, i);
      while j < |instances|
        invariant 0 <= j <= |instances|
        invariant Index(Tagged(data[..i]) + TagAll(rid, instances[..j])) == Ok(result)
      {
        var instance := Tag(rid, instances[j]);
        var ns := Namespace(instance);
        InnerStep(data, i, j);
        IndexSnoc(Tagged(data[..i]) + TagAll(rid, instances[..j]), instance);
        if ns.Err? {
          RaiseStops(data, i, j, ns.error);
          return Err(ns.error);
        }
        result := result[ns.value := instance];
        j := j + 1;
      }
      OuterStep(data, i);
      i := i + 1;
    }
    FullPrefix(data);
    return Ok(result);
  }

  /** The result exists exactly when every instance has a hashable namespace. */
  lemma {:induction false} IndexOkIff(items: seq<Entries<Value>>)
    ensures Index(items).Ok? <==> forall j :: 0 <= j < |items| ==> Namespace(items[j]).Ok?
    decreases |items|
  {
    if |items| > 0 {
      var init := items[..|items| - 1];
      IndexOkIff(init);
      assert forall j :: 0 <= j < |init| ==> init[j] == items[j];
    }
  }

  /** Every namespace in the result is that of some instance, and every instance's namespace is in the result. */
  lemma {:induction false} IndexKeys(items: seq<Entries<Value>>, ns: Value)
    requires Index(items).Ok?
    ensures ns in Index(items).value <==> exists j :: 0 <= j < |items| && Namespace(items[j]) == Ok(ns)
    decreases |items|
  {
    if |items| > 0 {
      var init := items[..|items| - 1];
      IndexKeys(init, ns);
      assert forall j :: 0 <= j < |init| ==> init[j] == items[j];
      if exists j :: 0 <= j < |items| && Namespace(items[j]) == Ok(ns) {
        var j :| 0 <= j < |items| && Namespace(items[j]) == Ok(ns);
        if j < |init| {
          assert Namespace(init[j]) == Ok(ns);
        }
      }
    }
  }

  /** Under a namespace the result holds the LAST instance with that namespace: later ones overwrite. */
  lemma {:induction false} IndexLast(items: seq<Entries<Value>>, j: nat, ns: Value)
    requires Index(items).Ok?
    requires j < |items| && Namespace(items[j]) == Ok(ns)
    requires forall k :: j < k < |items| ==> Namespace(items[k]) != Ok(ns)
    ensures ns in Index(items).value && Index(items).value[ns] == items[j]
    decreases |items|
  {
    var init := items[..|items| - 1];
    if j < |items| - 1 {
      assert Index(init).Ok?;
      assert forall k :: j < k < |init| ==> init[k] == items[k];
      IndexLast(init, j, ns);
    }
  }

  /** Where each tagged instance comes from: the `k`-th instance of entry `i`, carrying entry `i`'s id. */
  lemma {:induction false} TaggedSource(data: BuildData, j: nat) returns (i: nat, k: nat)
    requires j < |Tagged(data)|
    ensures i < |data| && k < |data[i].1|
    ensures Tagged(data)[j] == Tag(data[i].0, data[i].1[k])
    decreases |data|
  {
    var init := data[..|data| - 1];
    if j < |Tagged(init)| {
      i, k := TaggedSource(init, j);
    } else {
      i, k := |data| - 1, j - |Tagged(init)|;
    }
  }

  /**
   * Every value of the result is a copy of one input instance with that
   * namespace, extended with the id of the representation it was listed
   * under.
   */
  lemma InstancesCarryRepresentation(data: BuildData, ns: Value)
    requires InstancesSpec(data).Ok? && ns in InstancesSpec(data).value
    ensures exists i, k :: 0 <= i < |data| && 0 <= k < |data[i].1|
              && InstancesSpec(data).value[ns] == Tag(data[i].0, data[i].1[k])
              && Get(data[i].1[k], "namespace") == Some(ns)
  {
    var items := Tagged(data);
    IndexKeys(items, ns);
    var j :| 0 <= j < |items| && Namespace(items[j]) == Ok(ns);
    while j + 1 < |items| && exists k :: j < k < |items| && Namespace(items[k]) == Ok(ns)
      invariant 0 <= j < |items| && Namespace(items[j]) == Ok(ns)
      decreases |items| - j
    {
      var prev := j;
      j :| prev < j < |items| && Namespace(items[j]) == Ok(ns);
    }
    IndexLast(items, j, ns);
    var i, k := TaggedSource(data, j);
  }

  // ---------------------------------------------------------------------
  // compare_representations

  /** The folder and product entities a representation belongs to. */
  datatype Parents = Parents(folder: Entries<Value>, product: Entries<Value>)

  /** `d[key]`, raising `KeyError` when the key is missing. */
  function Item(d: Entries<Value>, key: string): (r: Result<Value>)
    ensures r.Ok? <==> Get(d, key).Some?
    ensures r.Ok? ==> Get(d, key) == Some(r.value)
  {
    match Get(d, key)
    case None => Err("KeyError: '" + key + "'")
    case Some(v) => Ok(v)
  }

  /** Both lookups succeed and give values Python's `==` calls equal. */
  predicate Same(a: Entries<Value>, b: Entries<Value>, key: string) {
    Get(a, key).Some? && Get(b, key).Some? && PyEq(Get(a, key).value, Get(b, key).value)
  }

  /** Both lookups succeed and give values Python's `!=` calls different. */
  predicate Differ(a: Entries<Value>, b: Entries<Value>, key: string) {
    Get(a, key).Some? && Get(b, key).Some? && !PyEq(Get(a, key).value, Get(b, key).value)
  }

  /**
   * `compare_representations`: a switch is allowed only when the
   * representation name, the folder id and the product id all stay the
   * same under Python's `==`.  The checks run in that order and the first
   * difference answers `False`; a missing key raises.
   */
  function CompareRepresentations(currentRepre: Entries<Value>, currentParents: Parents,
                                  newRepre: Entries<Value>, newParents: Parents): (r: Result<bool>)
    ensures (r == Ok(true)) <==> (Same(currentRepre, newRepre, "name")
                                 && Same(currentParents.folder, newParents.folder, "id")
                                 && Same(currentParents.product, newParents.product, "id"))
    ensures (r == Ok(false)) <==> (Differ(currentRepre, newRepre, "name")
                                  || (Same(currentRepre, newRepre, "name")
                                      && Differ(currentParents.folder, newParents.folder, "id"))
                                  || (Same(currentRepre, newRepre, "name")
                                      && Same(currentParents.folder, newParents.folder, "id")
                                      && Differ(currentParents.product, newParents.product, "id")))
  {
    match (Item(currentRepre, "name"), Item(newRepre, "name"))
    case (Err(e), _) => Err(e)
    case (_, Err(e)) => Err(e)
    case (Ok(a), Ok(b)) =>
      if !PyEq(a, b) then Ok(false)
      else
        match (Item(currentParents.folder, "id"), Item(newParents.folder, "id"))
        case (Err(e), _) => Err(e)
        case (_, Err(e)) => Err(e)
        case (Ok(c), Ok(d)) =>
          if !PyEq(c, d) then Ok(false)
          else
            match (Item(currentParents.product, "id"), Item(newParents.product, "id"))
            case (Err(e), _) => Err(e)
            case (_, Err(e)) => Err(e)
            case (Ok(f), Ok(g)) => Ok(PyEq(f, g))
  }

  /** Staying on the same representation is always allowed when the keys exist. */
  lemma CompareSame(repre: Entries<Value>, parents: Parents)
    requires Get(repre, "name").Some? && Get(parents.folder, "id").Some? && Get(parents.product, "id").Some?
    ensures CompareRepresentations(repre, parents, repre, parents) == Ok(true)
  {
    PyEqRefl(Get(repre, "name").value);
    PyEqRefl(Get(parents.folder, "id").value);
    PyEqRefl(Get(parents.product, "id").value);
  }

  /** Whether a switch is allowed does not depend on its direction. */
  lemma CompareSymmetric(a: Entries<Value>, pa: Parents, b: Entries<Value>, pb: Parents)
    requires CompareRepresentations(a, pa, b, pb).Ok?
    ensures CompareRepresentations(b, pb, a, pa) == CompareRepresentations(a, pa, b, pb)
  {
    forall x: Value, y: Value ensures PyEq(x, y) ==> PyEq(y, x) {
      if PyEq(x, y) { PyEqSymmetric(x, y); }
    }
  }
}

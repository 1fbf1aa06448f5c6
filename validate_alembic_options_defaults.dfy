/**
 * The Alembic options defaults validator: each publish attribute of the
 * Alembic (or animation) extractor that the project settings define must
 * equal the settings' value, lists compared without regard to order; the
 * repair writes the settings' values back over the attributes.
 */
module ValidateAlembicOptionsDefaults {
  import opened Strs
  import opened PyData

  /** The two validators: the pointcache one and its animation subclass. */
  datatype Variant = PointcacheDefaults | AnimationDefaults

  /** `plugin_name`: whose publish attributes are validated. */
  function PluginName(v: Variant): (r: string)
    ensures v.AnimationDefaults? <==> r == "ExtractAnimation"
  {
    match v
    case PointcacheDefaults => "ExtractAlembic"
    case AnimationDefaults => "ExtractAnimation"
  }

  /** `_get_settings`: both variants read the `ExtractAlembic` settings. */
  const SettingsKey: string := "ExtractAlembic"

  /**
   * Whether an attribute's value differs from its default, by Python's
   * `!=`. A list is compared sorted, so two lists differ when their
   * elements differ as multisets; `sorted` of a default that is not
   * iterable raises TypeError.
   */
  function Differs(value: Value, dflt: Value): (r: Result<bool>)
    ensures !value.VList? ==> r == Ok(!PyEq(value, dflt))
    ensures value.VList? && dflt.VList? ==> r == Ok(multiset(value.items) != multiset(dflt.items))
    ensures value.VList? && Items(dflt).None? ==> r.Err?
  {
    if value.VList? then
      match Items(dflt)
      case None => Err("TypeError: object is not iterable")
      case Some(ds) => Ok(multiset(value.items) != multiset(ds))
    else Ok(!PyEq(value, dflt))
  }

  /** A float attribute equal to an integer default does not differ (`1.0 != 1` is False). */
  lemma NumbersCompareByValue(n: int)
    ensures Differs(VFloat(IntToStr(n) + ".0"), VInt(n)) == Ok(false)
  {
    NumbersAcrossTypes(n);
    PyEqSymmetric(VInt(n), VFloat(IntToStr(n) + ".0"));
  }

  /** Lists holding the same elements in another order do not differ. */
  lemma ListOrderIgnored(a: seq<Value>, b: seq<Value>)
    ensures Differs(VList(a + b), VList(b + a)) == Ok(false)
  {
    assert multiset(a + b) == multiset(b + a);
  }

  /** Lists with different elements do differ. */
  lemma ListElementsCompared(a: seq<Value>, x: Value)
    ensures Differs(VList(a + [x]), VList(a)) == Ok(true)
  {
    assert multiset(a + [x])[x] == multiset(a)[x] + 1;
  }

  /**
   * The `invalid` dict: every attribute the settings define whose value
   * differs from the default, with both values; the first TypeError stops it.
   */
  function NonDefaults(attributes: Entries<Value>, settings: map<string, Value>): Result<Entries<(Value, Value)>> {
    if |attributes| == 0 then Ok([])
    else
      match NonDefaults(attributes[..|attributes| - 1], settings)
      case Err(e) => Err(e)
      case Ok(inv) =>
        var (key, value) := attributes[|attributes| - 1];
        if key !in settings then Ok(inv)
        else
          match Differs(value, settings[key])
          case Err(e) => Err(e)
          case Ok(d) => Ok(if d then Put(inv, key, (value, settings[key])) else inv)
  }

  /** `process`: Ok(the non-default attributes); it raises when there are any. */
  method Process(attributes: Entries<Value>, settings: map<string, Value>) returns (r: Result<Entries<(Value, Value)>>)
    ensures r == NonDefaults(attributes, settings)
  {
    var invalid: Entries<(Value, Value)> := [];
    for i := 0 to |attributes|
      invariant NonDefaults(attributes[..i], settings) == Ok(invalid)
    {
      assert attributes[..i + 1][..i] == attributes[..i];
      var (key, value) := attributes[i];
      if key !in settings {
        continue;
      }
      var d := Differs(value, settings[key]);
      if d.Err? {
        assert NonDefaults(attributes[..i + 1], settings).Err?;
        NonDefaultsErrSticks(attributes, settings, i + 1);
        return Err(d.error);
      }
      if d.value {
        invalid := Put(invalid, key, (value, settings[key]));
      }
    }
    assert attributes[..|attributes|] == attributes;
    return Ok(invalid);
  }

  /** Once an attribute raises, so does every longer prefix. */
  lemma {:induction false} NonDefaultsErrSticks(attributes: Entries<Value>, settings: map<string, Value>, i: nat)
    requires i <= |attributes| && NonDefaults(attributes[..i], settings).Err?
    ensures NonDefaults(attributes, settings) == NonDefaults(attributes[..i], settings)
    decreases |attributes| - i
  {
    if i < |attributes| {
      assert attributes[..i + 1][..i] == attributes[..i];
      NonDefaultsErrSticks(attributes, settings, i + 1);
    } else {
      assert attributes[..i] == attributes;
    }
  }

  /**
   * A key is reported exactly when the settings define it and its value
   * differs from the default (when nothing raises).
   */
  lemma {:induction false} ReportedExactly(attributes: Entries<Value>, settings: map<string, Value>, key: string)
    requires NonDefaults(attributes, settings).Ok?
    ensures HasKey(NonDefaults(attributes, settings).value, key) <==>
      key in settings && exists i :: 0 <= i < |attributes| && attributes[i].0 == key
                                   && Differs(attributes[i].1, settings[key]) == Ok(true)
    decreases |attributes|
  {
    if |attributes| > 0 {
      var n := |attributes| - 1;
      var init := attributes[..n];
      ReportedExactly(init, settings, key);
      assert forall i :: 0 <= i < n ==> init[i] == attributes[i];
      var inv := NonDefaults(init, settings).value;
      var (k, v) := attributes[n];
      if k in settings && Differs(v, settings[k]) == Ok(true) {
        PutHasKey(inv, k, (v, settings[k]), key);
      }
    }
  }

  lemma PutHasKey<V>(d: Entries<V>, k: string, v: V, key: string)
    ensures HasKey(Put(d, k, v), key) <==> HasKey(d, key) || key == k
  {
    var r := Put(d, k, v);
    if HasKey(d, k) {
      assert Keys(r) == Keys(d);
      if HasKey(d, key) {
        var i :| 0 <= i < |d| && d[i].0 == key;
        assert Keys(r)[i] == key;
      }
      if HasKey(r, key) {
        var i :| 0 <= i < |r| && r[i].0 == key;
        assert Keys(d)[i] == key;
      }
    } else {
      assert r == d + [(k, v)];
      assert r[|d|].0 == k;
      if HasKey(d, key) {
        var i :| 0 <= i < |d| && d[i].0 == key;
        assert r[i] == d[i];
      }
    }
  }

  /** Attributes the settings do not define never make the instance invalid. */
  lemma {:induction false} UnknownAttributesIgnored(attributes: Entries<Value>, settings: map<string, Value>)
    requires forall i :: 0 <= i < |attributes| ==> attributes[i].0 !in settings
    ensures NonDefaults(attributes, settings) == Ok([])
    decreases |attributes|
  {
    if |attributes| > 0 {
      UnknownAttributesIgnored(attributes[..|attributes| - 1], settings);
    }
  }

  /** The publish attribute values of the create instance, edited in place by the repair. */
  class PublishAttributeValues {
    var values: Entries<Value>

    constructor (values: Entries<Value>)
      ensures this.values == values
    {
      this.values := values;
    }

    /** `repair`: each attribute the settings define takes the settings' value; the rest stay. */
    method Repair(settings: map<string, Value>)
      modifies this
      ensures |values| == |old(values)|
      ensures forall i :: 0 <= i < |values| ==> values[i].0 == old(values)[i].0
      ensures forall i :: 0 <= i < |values| ==>
        values[i].1 == (if values[i].0 in settings then settings[values[i].0] else old(values)[i].1)
    {
      var i := 0;
      while i < |values|
        invariant 0 <= i <= |values| && |values| == |old(values)|
        invariant forall j :: 0 <= j < |values| ==> values[j].0 == old(values)[j].0
        invariant forall j :: 0 <= j < i ==>
          values[j].1 == (if values[j].0 in settings then settings[values[j].0] else old(values)[j].1)
        invariant forall j :: i <= j < |values| ==> values[j] == old(values)[j]
      {
        var key := values[i].0;
        if key in settings {
          values := values[i := (key, settings[key])];
        }
        i := i + 1;
      }
    }
  }

  /**
   * After the repair the validator passes: once every attribute the settings
   * define holds the settings' value, nothing is reported and nothing raises.
   */
  lemma {:induction false} RepairedPasses(values: Entries<Value>, settings: map<string, Value>)
    requires forall i :: 0 <= i < |values| && values[i].0 in settings ==> values[i].1 == settings[values[i].0]
    ensures NonDefaults(values, settings) == Ok([])
    decreases |values|
  {
    if |values| > 0 {
      RepairedPasses(values[..|values| - 1], settings);
      PyEqRefl(values[|values| - 1].1);
    }
  }
}

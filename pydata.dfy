/**
 * The Python values that flow through instance data, node attributes and
 * export options: None, bool, int, float, str, list, tuple and dict.  A dict
 * keeps its insertion order (Python 3.7+), so it is an association list; the
 * functions here give it Python's `in`, `get`, item assignment and `pop`.
 */
module PyData {
  import opened Strs

  datatype Value =
    | VNone
    | VBool(b: bool)
    | VInt(i: int)
      /** A finite float, carried as its `repr` text. */
    | VFloat(text: string)
    | VStr(s: string)
    | VList(items: seq<Value>)
    | VTuple(items: seq<Value>)
    | VDict(entries: seq<(string, Value)>)

  /** Python truthiness (`bool(v)`). */
  predicate Truthy(v: Value) {
    match v
    case VNone => false
    case VBool(b) => b
    case VInt(i) => i != 0
    case VFloat(t) => exists k :: 0 <= k < |t| && '1' <= t[k] <= '9'
    case VStr(s) => |s| > 0
    case VList(items) => |items| > 0
    case VTuple(items) => |items| > 0
    case VDict(entries) => |entries| > 0
  }

  /** A bool or an int: the values Python compares as integers (True == 1). */
  predicate IntLike(v: Value) {
    v.VBool? || v.VInt?
  }

  function IntValue(v: Value): int
    requires IntLike(v)
  {
    if v.VBool? then (if v.b then 1 else 0) else v.i
  }

  /** Whether a float's `repr` stands for the integer `n`: `n.0`, or `-0.0` for zero. */
  predicate FloatIsInt(text: string, n: int) {
    text == IntToStr(n) + ".0" || (n == 0 && text == "-0.0")
  }

  /**
   * Python's `==`: numbers compare by value across bool, int and float,
   * lists and tuples element by element; other values are equal when
   * they are the same value.
   */
  predicate PyEq(a: Value, b: Value)
    decreases a
  {
    if IntLike(a) && IntLike(b) then IntValue(a) == IntValue(b)
    else if IntLike(a) && b.VFloat? then FloatIsInt(b.text, IntValue(a))
    else if a.VFloat? && IntLike(b) then FloatIsInt(a.text, IntValue(b))
    else if a.VFloat? && b.VFloat? then a.text == b.text || (FloatIsInt(a.text, 0) && FloatIsInt(b.text, 0))
    else if (a.VList? && b.VList?) || (a.VTuple? && b.VTuple?) then
      |a.items| == |b.items| && forall i :: 0 <= i < |a.items| ==> PyEq(a.items[i], b.items[i])
    else a == b
  }

  /** `v in xs`, which compares with `==`. */
  predicate PyIn(v: Value, xs: seq<Value>) {
    exists i :: 0 <= i < |xs| && PyEq(v, xs[i])
  }

  /** Every value equals itself. */
  lemma {:induction false} PyEqRefl(a: Value)
    ensures PyEq(a, a)
    decreases a
  {
    if a.VList? || a.VTuple? {
      forall i | 0 <= i < |a.items| ensures PyEq(a.items[i], a.items[i]) {
        PyEqRefl(a.items[i]);
      }
    }
  }

  /** `==` is symmetric. */
  lemma {:induction false} PyEqSymmetric(a: Value, b: Value)
    requires PyEq(a, b)
    ensures PyEq(b, a)
    decreases a
  {
    if (a.VList? && b.VList?) || (a.VTuple? && b.VTuple?) {
      forall i | 0 <= i < |b.items| ensures PyEq(b.items[i], a.items[i]) {
        PyEqSymmetric(a.items[i], b.items[i]);
      }
    }
  }

  /** An int equals the float of the same value, and True equals 1. */
  lemma NumbersAcrossTypes(n: int)
    ensures PyEq(VInt(n), VFloat(IntToStr(n) + ".0"))
    ensures PyEq(VBool(true), VInt(1)) && PyEq(VBool(false), VInt(0))
    ensures !PyEq(VInt(n), VStr(IntToStr(n)))
  { }

  /**
   * `repr(v)`, which is also `str(v)` for every value but a string: strings
   * in single quotes (without escaping), containers with their items' reprs.
   */
  function Repr(v: Value): string
    decreases v
  {
    match v
    case VNone => "None"
    case VBool(b) => if b then "True" else "False"
    case VInt(i) => IntToStr(i)
    case VFloat(t) => t
    case VStr(s) => "'" + s + "'"
    case VList(items) => "[" + Join(seq(|items|, k requires 0 <= k < |items| => Repr(items[k])), ", ") + "]"
    case VTuple(items) =>
      if |items| == 1 then "(" + Repr(items[0]) + ",)"
      else "(" + Join(seq(|items|, k requires 0 <= k < |items| => Repr(items[k])), ", ") + ")"
    case VDict(entries) =>
      "{" + Join(seq(|entries|, k requires 0 <= k < |entries| => "'" + entries[k].0 + "': " + Repr(entries[k].1)), ", ") + "}"
  }

  /** `isinstance(v, (list, tuple, dict))`. */
  predicate IsContainer(v: Value) {
    v.VList? || v.VTuple? || v.VDict?
  }

  /** A list of strings as Python values. */
  function StrValues(xs: seq<string>): (r: seq<Value>)
    ensures |r| == |xs| && forall i :: 0 <= i < |xs| ==> r[i] == VStr(xs[i])
  {
    seq(|xs|, i requires 0 <= i < |xs| => VStr(xs[i]))
  }

  /**
   * What `len`, unpacking and iteration see in a value: the items of a list or tuple,
   * the characters of a str, the keys of a dict; None when it has no length.
   */
  function Items(v: Value): Option<seq<Value>> {
    match v
    case VList(items) => Some(items)
    case VTuple(items) => Some(items)
    case VStr(s) => Some(seq(|s|, i requires 0 <= i < |s| => VStr([s[i]])))
    case VDict(entries) => Some(seq(|entries|, i requires 0 <= i < |entries| => VStr(entries[i].0)))
    case _ => None
  }

  /** The position of the first of `keys` that `m` holds; None when it holds none of them. */
  function FirstIn<V>(keys: seq<string>, m: map<string, V>): (r: Option<nat>)
    ensures r.Some? ==> r.value < |keys| && keys[r.value] in m
    ensures r.Some? ==> forall j :: 0 <= j < r.value ==> keys[j] !in m
    ensures r.None? <==> forall j :: 0 <= j < |keys| ==> keys[j] !in m
  {
    if |keys| == 0 then None
    else if keys[0] in m then Some(0)
    else
      var r := FirstIn(keys[1..], m);
      if r.None? then None else Some(r.value + 1)
  }

  // ---------------------------------------------------------------------
  // Insertion-ordered dicts

  type Entries<V> = seq<(string, V)>

  function Keys<V>(d: Entries<V>): (ks: seq<string>)
    ensures |ks| == |d|
    ensures forall i :: 0 <= i < |d| ==> ks[i] == d[i].0
  {
    seq(|d|, i requires 0 <= i < |d| => d[i].0)
  }

  predicate HasKey<V>(d: Entries<V>, k: string) {
    exists i :: 0 <= i < |d| && d[i].0 == k
  }

  predicate UniqueKeys<V>(d: Entries<V>) {
    forall i, j :: 0 <= i < j < |d| ==> d[i].0 != d[j].0
  }

  /** `d.get(k)`: the value of the last entry with key `k`. */
  function Get<V>(d: Entries<V>, k: string): (r: Option<V>)
    ensures r.None? <==> !HasKey(d, k)
    ensures r.Some? ==> exists i :: 0 <= i < |d| && d[i] == (k, r.value)
    decreases |d|
  {
    if |d| == 0 then None
    else if d[|d| - 1].0 == k then Some(d[|d| - 1].1)
    else
      var r := Get(d[..|d| - 1], k);
      assert forall i :: 0 <= i < |d| - 1 ==> d[..|d| - 1][i] == d[i];
      r
  }

  /** `d.get(k, dflt)`. */
  function GetOr<V>(d: Entries<V>, k: string, dflt: V): V {
    match Get(d, k)
    case Some(v) => v
    case None => dflt
  }

  /** `d[k] = v`: an existing key keeps its position, a new one goes last. */
  function Put<V>(d: Entries<V>, k: string, v: V): (r: Entries<V>)
    ensures HasKey(d, k) ==> |r| == |d| && Keys(r) == Keys(d)
    ensures !HasKey(d, k) ==> r == d + [(k, v)]
    ensures forall i :: 0 <= i < |r| && r[i].0 != k ==> i < |d| && r[i] == d[i]
    ensures forall i :: 0 <= i < |r| && r[i].0 == k ==> r[i].1 == v
  {
    if HasKey(d, k) then
      seq(|d|, i requires 0 <= i < |d| => if d[i].0 == k then (k, v) else d[i])
    else d + [(k, v)]
  }

  /** `d.pop(k, None)`: every entry with key `k` is removed, the rest keep their order. */
  function Remove<V>(d: Entries<V>, k: string): (r: Entries<V>)
    ensures forall k2 :: HasKey(r, k2) <==> HasKey(d, k2) && k2 != k
    ensures forall k2 :: k2 != k ==> Get(r, k2) == Get(d, k2)
    ensures UniqueKeys(d) ==> UniqueKeys(r)
    decreases |d|
  {
    if |d| == 0 then []
    else
      var r := Remove(d[..|d| - 1], k);
      assert forall i :: 0 <= i < |d| - 1 ==> d[..|d| - 1][i] == d[i];
      assert d == d[..|d| - 1] + [d[|d| - 1]];
      HasKeyConcat(d[..|d| - 1], [d[|d| - 1]]);
      if d[|d| - 1].0 == k then r
      else
        HasKeyConcat(r, [d[|d| - 1]]);
        assert UniqueKeys(d) ==> UniqueKeys(r + [d[|d| - 1]]) by {
          if UniqueKeys(d) {
            assert !HasKey(d[..|d| - 1], d[|d| - 1].0);
            UniqueAppend(r, d[|d| - 1]);
          }
        }
        r + [d[|d| - 1]]
  }

  lemma HasKeyConcat<V>(a: Entries<V>, b: Entries<V>)
    ensures forall k :: HasKey(a + b, k) <==> HasKey(a, k) || HasKey(b, k)
  {
    forall k | HasKey(a + b, k) ensures HasKey(a, k) || HasKey(b, k) {
      var i :| 0 <= i < |a + b| && (a + b)[i].0 == k;
      if i >= |a| { assert b[i - |a|].0 == k; }
    }
    forall k | HasKey(a, k) ensures HasKey(a + b, k) {
      var i :| 0 <= i < |a| && a[i].0 == k;
      assert (a + b)[i].0 == k;
    }
    forall k | HasKey(b, k) ensures HasKey(a + b, k) {
      var i :| 0 <= i < |b| && b[i].0 == k;
      assert (a + b)[|a| + i].0 == k;
    }
  }

  lemma UniqueAppend<V>(a: Entries<V>, x: (string, V))
    requires UniqueKeys(a) && !HasKey(a, x.0)
    ensures UniqueKeys(a + [x])
  {
    forall i, j | 0 <= i < j < |a| + 1 ensures (a + [x])[i].0 != (a + [x])[j].0 {
      if j == |a| { assert a[i].0 != x.0; }
    }
  }

  lemma GetPut<V>(d: Entries<V>, k: string, v: V, k2: string)
    ensures Get(Put(d, k, v), k2) == if k2 == k then Some(v) else Get(d, k2)
  {
    var r := Put(d, k, v);
    if k2 == k {
      assert HasKey(r, k) by {
        if HasKey(d, k) { var i :| 0 <= i < |d| && d[i].0 == k; assert r[i].0 == k; }
        else { assert r[|d|].0 == k; }
      }
    } else if HasKey(d, k) {
      GetPointwise(d, r, k2);
    } else {
      assert r[..|r| - 1] == d;
    }
  }

  /** Two dicts with the same keys that agree off key `k` agree on `Get` of any other key. */
  lemma {:induction false} GetPointwise<V>(d: Entries<V>, r: Entries<V>, k2: string)
    requires |r| == |d|
    requires forall i :: 0 <= i < |d| ==> (r[i].0 == k2 <==> d[i].0 == k2)
    requires forall i :: 0 <= i < |d| && d[i].0 == k2 ==> r[i] == d[i]
    ensures Get(r, k2) == Get(d, k2)
    decreases |d|
  {
    if |d| > 0 {
      GetPointwise(d[..|d| - 1], r[..|r| - 1], k2);
    }
  }

  lemma PutUnique<V>(d: Entries<V>, k: string, v: V)
    requires UniqueKeys(d)
    ensures UniqueKeys(Put(d, k, v))
  {
  }

  /** The dict as a map from keys to values (Python dict equality ignores order). */
  function ToMap<V>(d: Entries<V>): (m: map<string, V>)
    ensures forall k :: k in m <==> HasKey(d, k)
    ensures forall k :: k in m ==> Get(d, k) == Some(m[k])
    decreases |d|
  {
    if |d| == 0 then map[]
    else
      var m := ToMap(d[..|d| - 1]);
      assert forall i :: 0 <= i < |d| - 1 ==> d[..|d| - 1][i] == d[i];
      m[d[|d| - 1].0 := d[|d| - 1].1]
  }

  /** Popping a key the dict does not hold changes nothing. */
  lemma {:induction false} RemoveAbsent<V>(d: Entries<V>, k: string)
    requires !HasKey(d, k)
    ensures Remove(d, k) == d
    decreases |d|
  {
    if |d| > 0 {
      var init := d[..|d| - 1];
      assert !HasKey(init, k);
      assert d[|d| - 1].0 != k;
      RemoveAbsent(init, k);
      assert init + [d[|d| - 1]] == d;
    }
  }

  /** `d.pop(k)` on a dict holding `k` once removes exactly that entry. */
  lemma {:induction false} RemoveMiddle<V>(a: Entries<V>, x: (string, V), b: Entries<V>)
    requires !HasKey(a, x.0) && !HasKey(b, x.0)
    ensures Remove(a + [x] + b, x.0) == a + b
    decreases |b|
  {
    var d := a + [x] + b;
    if |b| == 0 {
      assert d[..|d| - 1] == a;
      RemoveAbsent(a, x.0);
      assert a + b == a;
    } else {
      var init := b[..|b| - 1];
      var last := b[|b| - 1];
      assert d[..|d| - 1] == a + [x] + init;
      assert !HasKey(init, x.0);
      assert last.0 != x.0;
      RemoveMiddle(a, x, init);
      assert a + init + [last] == a + b;
    }
  }

  /** `d[k] = v` on a dict holding `k` once replaces that entry in place. */
  lemma PutMiddle<V>(a: Entries<V>, x: (string, V), b: Entries<V>, v: V)
    requires !HasKey(a, x.0) && !HasKey(b, x.0)
    ensures Put(a + [x] + b, x.0, v) == a + [(x.0, v)] + b
  {
    var d := a + [x] + b;
    assert d[|a|].0 == x.0;
    var r := Put(d, x.0, v);
    var e := a + [(x.0, v)] + b;
    assert |r| == |e|;
    forall i | 0 <= i < |r| ensures r[i] == e[i] {
      if i < |a| {
        assert a[i].0 != x.0;
      } else if i > |a| {
        assert b[i - |a| - 1].0 != x.0;
      }
    }
  }

  /** Two dicts with distinct keys of their own and none in common make one dict with distinct keys. */
  lemma UniqueConcat<V>(a: Entries<V>, b: Entries<V>)
    requires UniqueKeys(a) && UniqueKeys(b)
    requires forall k :: HasKey(a, k) ==> !HasKey(b, k)
    ensures UniqueKeys(a + b)
  {
    forall i, j | 0 <= i < j < |a + b| ensures (a + b)[i].0 != (a + b)[j].0 {
      if i < |a| && j >= |a| {
        assert HasKey(a, a[i].0);
        assert b[j - |a|] == (a + b)[j];
      } else if i >= |a| {
        assert (a + b)[i] == b[i - |a|] && (a + b)[j] == b[j - |a|];
      }
    }
  }
}

/**
 * The unique transform names validator: among the transforms whose Maya
 * short name is a path (it contains `|`, so the leaf name alone is not
 * unique in the scene), those sharing a leaf name with another are invalid.
 */
module ValidateUniqueNames {
  import opened Strs

  /** `tr.rsplit("|", 1)[-1]`. */
  function Leaf(t: string): string {
    AfterLast(t, '|')
  }

  /** The transforms whose name contains `|`, in order. */
  function Considered(transforms: seq<string>): (r: seq<string>)
    ensures forall x :: x in r <==> x in transforms && '|' in x
  {
    if |transforms| == 0 then []
    else
      var t := transforms[|transforms| - 1];
      var init := transforms[..|transforms| - 1];
      assert transforms == init + [t];
      Considered(init) + (if '|' in t then [t] else [])
  }

  /** `Counter` value: how many of `xs` have leaf name `name`. */
  function Count(xs: seq<string>, name: string): nat {
    if |xs| == 0 then 0
    else Count(xs[..|xs| - 1], name) + (if Leaf(xs[|xs| - 1]) == name then 1 else 0)
  }

  /** The considered transforms whose leaf name is counted at least twice, in order. */
  function Repeated(xs: seq<string>, all: seq<string>): seq<string> {
    if |xs| == 0 then []
    else
      var t := xs[|xs| - 1];
      Repeated(xs[..|xs| - 1], all) + (if Count(all, Leaf(t)) >= 2 then [t] else [])
  }

  /** `get_invalid`: count the leaf names, then keep every transform whose leaf name repeats. */
  method GetInvalid(transforms: seq<string>) returns (invalid: seq<string>)
    ensures invalid == Repeated(Considered(transforms), Considered(transforms))
  {
    var considered: seq<string> := [];
    for i := 0 to |transforms|
      invariant considered == Considered(transforms[..i])
    {
      assert transforms[..i + 1][..i] == transforms[..i];
      if '|' in transforms[i] {
        considered := considered + [transforms[i]];
      }
    }
    assert transforms[..|transforms|] == transforms;
    var count := CountLeaves(considered);
    invalid := KeepRepeated(considered, count);
  }

  /** The `Counter` of leaf names; a name it lacks counts 0. */
  method CountLeaves(xs: seq<string>) returns (count: map<string, nat>)
    ensures forall name :: (if name in count then count[name] else 0) == Count(xs, name)
  {
    count := map[];
    for i := 0 to |xs|
      invariant forall name :: (if name in count then count[name] else 0) == Count(xs[..i], name)
    {
      assert xs[..i + 1][..i] == xs[..i];
      var short := Leaf(xs[i]);
      count := count[short := (if short in count then count[short] else 0) + 1];
    }
    assert xs[..|xs|] == xs;
  }

  /** The second loop: every transform whose leaf name counts at least two. */
  method KeepRepeated(xs: seq<string>, count: map<string, nat>) returns (invalid: seq<string>)
    requires forall name :: (if name in count then count[name] else 0) == Count(xs, name)
    ensures invalid == Repeated(xs, xs)
  {
    invalid := [];
    for i := 0 to |xs|
      invariant invalid == Repeated(xs[..i], xs)
    {
      assert xs[..i + 1][..i] == xs[..i];
      var short := Leaf(xs[i]);
      if (if short in count then count[short] else 0) >= 2 {
        invalid := invalid + [xs[i]];
      }
    }
    assert xs[..|xs|] == xs;
  }

  /** A leaf name is counted at least twice exactly when two positions hold it. */
  lemma {:induction false} CountTwice(xs: seq<string>, name: string)
    ensures Count(xs, name) >= 2 <==> exists i, j :: 0 <= i < j < |xs| && Leaf(xs[i]) == name && Leaf(xs[j]) == name
    ensures Count(xs, name) >= 1 <==> exists i :: 0 <= i < |xs| && Leaf(xs[i]) == name
    decreases |xs|
  {
    if |xs| > 0 {
      var n := |xs| - 1;
      var init := xs[..n];
      CountTwice(init, name);
      assert forall i :: 0 <= i < n ==> init[i] == xs[i];
    }
  }

  /** A transform is reported exactly when another considered position has its leaf name. */
  lemma InvalidExactly(transforms: seq<string>, k: nat)
    requires k < |Considered(transforms)|
    ensures var c := Considered(transforms);
      c[k] in Repeated(c, c) <==> exists j :: 0 <= j < |c| && j != k && Leaf(c[j]) == Leaf(c[k])
  {
    var c := Considered(transforms);
    RepeatedExactly(c, c, c[k]);
    CountTwice(c, Leaf(c[k]));
    if exists j :: 0 <= j < |c| && j != k && Leaf(c[j]) == Leaf(c[k]) {
      var j :| 0 <= j < |c| && j != k && Leaf(c[j]) == Leaf(c[k]);
      if j < k {
        assert 0 <= j < k < |c|;
      } else {
        assert 0 <= k < j < |c|;
      }
    }
  }

  lemma {:induction false} RepeatedExactly(xs: seq<string>, all: seq<string>, t: string)
    ensures t in Repeated(xs, all) <==> t in xs && Count(all, Leaf(t)) >= 2
    decreases |xs|
  {
    if |xs| > 0 {
      var init := xs[..|xs| - 1];
      RepeatedExactly(init, all, t);
      assert xs == init + [xs[|xs| - 1]];
    }
  }

  /**
   * The report keeps the considered transforms' order: it is the
   * transforms at strictly increasing positions `idx` of the input.
   */
  lemma {:induction false} RepeatedInOrder(xs: seq<string>, all: seq<string>) returns (idx: seq<nat>)
    ensures |idx| == |Repeated(xs, all)|
    ensures forall i :: 0 <= i < |idx| ==> idx[i] < |xs| && Repeated(xs, all)[i] == xs[idx[i]]
    ensures forall i, j :: 0 <= i < j < |idx| ==> idx[i] < idx[j]
    decreases |xs|
  {
    if |xs| == 0 {
      idx := [];
    } else {
      var n := |xs| - 1;
      var init := xs[..n];
      idx := RepeatedInOrder(init, all);
      if Count(all, Leaf(xs[n])) >= 2 {
        idx := idx + [n];
      }
    }
  }

  /** No transform with a `|` in its name means nothing to report. */
  lemma {:induction false} NothingConsidered(transforms: seq<string>)
    requires forall i :: 0 <= i < |transforms| ==> '|' !in transforms[i]
    ensures Considered(transforms) == []
    ensures Repeated(Considered(transforms), Considered(transforms)) == []
    decreases |transforms|
  {
    if |transforms| > 0 {
      NothingConsidered(transforms[..|transforms| - 1]);
    }
  }
}

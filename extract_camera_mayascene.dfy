/**
 * The camera extractor (Maya scene): the scene type chosen from the
 * extension mapping, the export type that follows from it, the `grouper`
 * helper, and the rewrite of the exported `.ma` file that drops its
 * `rename -uid` lines.  Baking, image planes and the export itself are
 * Maya calls outside the model.
 */
module ExtractCameraMayaScene {
  import opened Strs
  import opened PyData
  import opened Chunking

  // ---------------------------------------------------------------------
  // massage_ma_file

  /** A line the rewrite skips: stripped of surrounding whitespace it starts with `rename -uid `. */
  predicate RenameUid(line: string) {
    StartsWith(StripWs(line), "rename -uid ")
  }

  /** The lines the rewrite keeps, in their order. */
  function Massaged(lines: seq<string>): (r: seq<string>)
    ensures |r| <= |lines|
  {
    if |lines| == 0 then []
    else Massaged(lines[..|lines| - 1]) + (if RenameUid(lines[|lines| - 1]) then [] else [lines[|lines| - 1]])
  }

  /**
   * `massage_ma_file`: the file's lines are read, and each line that is
   * not a `rename -uid` line is written back; the file is truncated after
   * the last one written.
   */
  method MassageMaFile(lines: seq<string>) returns (written: seq<string>)
    ensures written == Massaged(lines)
  {
    written := [];
    for i := 0 to |lines|
      invariant written == Massaged(lines[..i])
    {
      assert lines[..i + 1][..i] == lines[..i];
      if RenameUid(lines[i]) {
        continue;
      }
      written := written + [lines[i]];
    }
    assert lines[..|lines|] == lines;
  }

  /** The rewrite of two runs of lines is the rewrite of each, in order. */
  lemma {:induction false} MassagedAppend(a: seq<string>, b: seq<string>)
    ensures Massaged(a + b) == Massaged(a) + Massaged(b)
    decreases |b|
  {
    if |b| == 0 {
      assert a + b == a;
    } else {
      var b' := b[..|b| - 1];
      assert (a + b)[..|a + b| - 1] == a + b';
      assert (a + b)[|a + b| - 1] == b[|b| - 1];
      MassagedAppend(a, b');
    }
  }

  /** A line survives exactly when it is in the file and is not a `rename -uid` line. */
  lemma {:induction false} MassagedKeeps(lines: seq<string>, line: string)
    ensures line in Massaged(lines) <==> line in lines && !RenameUid(line)
    decreases |lines|
  {
    if |lines| > 0 {
      var init := lines[..|lines| - 1];
      var last := lines[|lines| - 1];
      MassagedKeeps(init, line);
      KeepsStep(init, last, line, Massaged(init), Massaged(lines), RenameUid(last), RenameUid(line));
      assert lines == init + [last];
    }
  }

  /** One step of `MassagedKeeps`, with the `rename -uid` tests given as plain booleans. */
  lemma KeepsStep(init: seq<string>, last: string, line: string, kept: seq<string>, keptAll: seq<string>, dropLast: bool, dropLine: bool)
    requires line in kept <==> line in init && !dropLine
    requires keptAll == kept + (if dropLast then [] else [last])
    requires line == last ==> dropLine == dropLast
    ensures line in keptAll <==> line in init + [last] && !dropLine
  {
    if line == last && !dropLast {
      assert keptAll[|kept|] == line;
    }
  }

  /** Rewriting an already rewritten file changes nothing. */
  lemma {:induction false} MassagedIdempotent(lines: seq<string>)
    ensures Massaged(Massaged(lines)) == Massaged(lines)
    decreases |lines|
  {
    if |lines| > 0 {
      var init := lines[..|lines| - 1];
      var last := lines[|lines| - 1];
      var tail := if RenameUid(last) then [] else [last];
      MassagedIdempotent(init);
      MassagedAppend(Massaged(init), tail);
      if !RenameUid(last) {
        assert Massaged([last]) == Massaged([last][..0]) + [last];
        assert [last][..0] == [];
      } else {
        assert Massaged(tail) == [];
      }
    }
  }

  // ---------------------------------------------------------------------
  // grouper

  /** A chunk filled up to n with `fill`. */
  function Pad<T>(c: seq<T>, n: nat, fill: T): (r: seq<T>)
    requires |c| <= n
    ensures |r| == n && forall i :: 0 <= i < |c| ==> r[i] == c[i]
    ensures forall i :: |c| <= i < n ==> r[i] == fill
  {
    c + seq(n - |c|, _ => fill)
  }

  function PadAll<T>(cs: seq<seq<T>>, n: nat, fill: T): seq<seq<T>>
    requires forall k :: 0 <= k < |cs| ==> |cs[k]| <= n
  {
    seq(|cs|, k requires 0 <= k < |cs| => Pad(cs[k], n, fill))
  }

  /**
   * `grouper(iterable, n, fillvalue)`: `zip_longest` over n references to
   * one iterator gives the chunks of n, the last filled with `fillvalue`;
   * with n = 0 there is nothing to zip.
   */
  function Grouper<T>(xs: seq<T>, n: nat, fill: T): seq<seq<T>> {
    if n == 0 then []
    else
      ChunksFit(xs, n);
      PadAll(Chunks(xs, n), n, fill)
  }

  lemma ChunksFit<T>(xs: seq<T>, n: nat)
    requires n > 0
    ensures forall k :: 0 <= k < |Chunks(xs, n)| ==> |Chunks(xs, n)[k]| <= n
  {
    forall k | 0 <= k < |Chunks(xs, n)| {
      ChunksSizes(xs, n, k);
    }
  }

  /** There are ceil(|xs| / n) groups, each of exactly n items. */
  lemma GroupSizes<T>(xs: seq<T>, n: nat, fill: T, k: nat)
    requires n > 0
    ensures |Grouper(xs, n, fill)| == |Chunks(xs, n)|
    ensures |Grouper(xs, n, fill)| * n >= |xs|
    ensures |xs| > 0 ==> (|Grouper(xs, n, fill)| - 1) * n < |xs|
    ensures k < |Grouper(xs, n, fill)| ==> |Grouper(xs, n, fill)[k]| == n
  {
    ChunksCount(xs, n);
    StartMul(n, |Chunks(xs, n)|);
    if |xs| > 0 {
      StartMul(n, |Chunks(xs, n)| - 1);
    }
  }

  lemma {:induction false} StartMul(n: nat, k: nat)
    ensures Start(n, k) == k * n
  {
    if k > 0 {
      StartMul(n, k - 1);
      assert (k - 1) * n + n == k * n;
    }
  }

  lemma GroupIsPadded<T>(xs: seq<T>, n: nat, fill: T, k: nat)
    requires n > 0 && k < |Chunks(xs, n)|
    ensures k < |Grouper(xs, n, fill)| && |Chunks(xs, n)[k]| <= n
    ensures Grouper(xs, n, fill)[k] == Pad(Chunks(xs, n)[k], n, fill)
  {
    ChunksFit(xs, n);
  }

  lemma SliceAt<T>(xs: seq<T>, s: nat, e: nat, c: seq<T>, i: nat)
    requires s <= e <= |xs| && c == xs[s..e]
    ensures |c| == e - s
    ensures i < e - s ==> c[i] == xs[s + i]
  { }

  /** Position i of group k holds item n * k + i where there is one. */
  lemma GroupItem<T>(xs: seq<T>, n: nat, fill: T, k: nat, i: nat)
    requires n > 0 && k < |Chunks(xs, n)| && i < n
    requires Start(n, k) + i < |xs|
    ensures k < |Grouper(xs, n, fill)| && Grouper(xs, n, fill)[k][i] == xs[Start(n, k) + i]
  {
    GroupIsPadded(xs, n, fill, k);
    ChunkItem(xs, n, k, i);
    PadAt(Chunks(xs, n)[k], n, fill, i);
  }

  /** Past the last item, the groups hold `fill`. */
  lemma GroupFill<T>(xs: seq<T>, n: nat, fill: T, k: nat, i: nat)
    requires n > 0 && k < |Chunks(xs, n)| && i < n
    requires Start(n, k) + i >= |xs|
    ensures k < |Grouper(xs, n, fill)| && Grouper(xs, n, fill)[k][i] == fill
  {
    GroupIsPadded(xs, n, fill, k);
    ChunkItem(xs, n, k, i);
    PadAt(Chunks(xs, n)[k], n, fill, i);
  }

  lemma ChunkItem<T>(xs: seq<T>, n: nat, k: nat, i: nat)
    requires n > 0 && k < |Chunks(xs, n)| && i < n
    ensures Start(n, k) + i < |xs| ==> i < |Chunks(xs, n)[k]| && Chunks(xs, n)[k][i] == xs[Start(n, k) + i]
    ensures Start(n, k) + i >= |xs| ==> i >= |Chunks(xs, n)[k]|
  {
    ChunksAt(xs, n, k);
    var s := Start(n, k);
    var e := Min(s + n, |xs|);
    SliceAt(xs, s, e, Chunks(xs, n)[k], i);
  }

  lemma PadAt<T>(c: seq<T>, n: nat, fill: T, i: nat)
    requires |c| <= n && i < n
    ensures i < |c| ==> Pad(c, n, fill)[i] == c[i]
    ensures i >= |c| ==> Pad(c, n, fill)[i] == fill
  { }

  /** Two full groups and a short rest give the two groups and the padded rest. */
  lemma ThreeGroups<T>(a: seq<T>, b: seq<T>, c: seq<T>, n: nat, fill: T)
    requires n > 0 && |a| == n && |b| == n && 0 < |c| <= n
    ensures Grouper(a + (b + c), n, fill) == [a, b, Pad(c, n, fill)]
  {
    ChunksPrepend(a, b + c, n);
    ChunksPrepend(b, c, n);
    ChunksLast(c, n);
    assert Chunks(a + (b + c), n) == [a, b, c];
    assert Pad(a, n, fill) == a;
    assert Pad(b, n, fill) == b;
  }

  /** `grouper('ABCDEFG', 3, 'x')` gives ABC, DEF, Gxx. */
  lemma GrouperExample()
    ensures Grouper("ABC" + ("DEF" + "G"), 3, 'x') == ["ABC", "DEF", "G" + "xx"]
  {
    ThreeGroups("ABC", "DEF", "G", 3, 'x');
    assert Pad("G", 3, 'x') == "G" + "xx";
  }

  // ---------------------------------------------------------------------
  // The scene type

  /** The families looked up in the extension mapping, in order. */
  const Families: seq<string> := ["camera", "matchmove"]

  /** The Maya file type of the export. */
  function FileType(sceneType: string): (r: string)
    ensures r == "mayaAscii" <==> sceneType == "ma"
    ensures r == "mayaAscii" || r == "mayaBinary"
  {
    if sceneType == "ma" then "mayaAscii" else "mayaBinary"
  }

  /**
   * The extractor's scene type: `ma` unless an earlier instance set it;
   * `process` sets it from the mapping of the first of its families that
   * the mapping holds.
   */
  class CameraExtractor {
    var sceneType: string

    constructor()
      ensures sceneType == "ma"
    {
      sceneType := "ma";
    }

    method SelectSceneType(extMapping: map<string, string>)
      modifies this
      ensures sceneType == match FirstIn(Families, extMapping)
                           case Some(i) => extMapping[Families[i]]
                           case None => old(sceneType)
    {
      if |extMapping| == 0 {
        return;
      }
      for i := 0 to |Families|
        invariant sceneType == old(sceneType)
        invariant forall j :: 0 <= j < i ==> Families[j] !in extMapping
      {
        if Families[i] in extMapping {
          sceneType := extMapping[Families[i]];
          return;
        }
      }
    }
  }
}

/**
 * Cutting a sequence into consecutive chunks of a fixed size, the last
 * one possibly shorter, and flattening chunks back into one sequence.
 */
module Chunking {

  function Min(a: int, b: int): int { if a <= b then a else b }

  /** Consecutive chunks of `n` elements; the last holds what remains. */
  function Chunks<T>(xs: seq<T>, n: nat): seq<seq<T>>
    requires n > 0
    decreases |xs|
  {
    if |xs| == 0 then [] else [xs[..Min(n, |xs|)]] + Chunks(xs[Min(n, |xs|)..], n)
  }

  function Flatten<T>(xss: seq<seq<T>>): seq<T> {
    if |xss| == 0 then [] else xss[0] + Flatten(xss[1..])
  }

  /** Where chunk k starts: k times n. */
  function Start(n: nat, k: nat): nat {
    if k == 0 then 0 else Start(n, k - 1) + n
  }

  /** There are ceil(|xs| / n) chunks: the fewest that hold |xs| elements n at a time. */
  lemma {:induction false} ChunksCount<T>(xs: seq<T>, n: nat)
    requires n > 0
    ensures Start(n, |Chunks(xs, n)|) >= |xs|
    ensures |xs| > 0 ==> |Chunks(xs, n)| > 0 && Start(n, |Chunks(xs, n)| - 1) < |xs|
    ensures |xs| == 0 <==> |Chunks(xs, n)| == 0
    decreases |xs|
  {
    if |xs| > n {
      ChunksCount(xs[n..], n);
      StartShift(n, |Chunks(xs[n..], n)|);
      StartShift(n, |Chunks(xs[n..], n)| - 1);
    } else if |xs| > 0 {
      assert Chunks(xs[|xs|..], n) == [];
    }
  }

  lemma {:induction false} StartShift(n: nat, k: nat)
    ensures Start(n, k + 1) == n + Start(n, k)
  { }

  /** Chunk k is the slice starting at n * k, cut at n elements or at the end. */
  lemma {:induction false} ChunksAt<T>(xs: seq<T>, n: nat, k: nat)
    requires n > 0 && k < |Chunks(xs, n)|
    ensures Start(n, k) < |xs|
    ensures Chunks(xs, n)[k] == xs[Start(n, k)..Min(Start(n, k) + n, |xs|)]
    decreases |xs|
  {
    if k > 0 {
      var m := Min(n, |xs|);
      assert Chunks(xs, n)[k] == Chunks(xs[m..], n)[k - 1];
      ChunksAt(xs[m..], n, k - 1);
      assert m == n;
      var s := Start(n, k - 1);
      StartShift(n, k - 1);
      SuffixSlice(xs, n, s, Min(s + n, |xs| - n));
    }
  }

  lemma SuffixSlice<T>(xs: seq<T>, n: nat, a: nat, b: nat)
    requires n <= |xs| && a <= b <= |xs| - n
    ensures xs[n..][a..b] == xs[n + a..n + b]
  { }

  /** A full chunk in front adds exactly that chunk. */
  lemma ChunksPrepend<T>(c: seq<T>, rest: seq<T>, n: nat)
    requires n > 0 && |c| == n
    ensures Chunks(c + rest, n) == [c] + Chunks(rest, n)
  {
    assert (c + rest)[..n] == c;
    assert (c + rest)[n..] == rest;
  }

  /** A sequence of at most n elements is a single chunk. */
  lemma ChunksLast<T>(c: seq<T>, n: nat)
    requires 0 < |c| <= n
    ensures Chunks(c, n) == [c]
  {
    assert c[..|c|] == c;
    assert c[|c|..] == [];
  }

  /** Flattening the chunks gives back the sequence. */
  lemma {:induction false} ChunksFlatten<T>(xs: seq<T>, n: nat)
    requires n > 0
    ensures Flatten(Chunks(xs, n)) == xs
    decreases |xs|
  {
    if |xs| > 0 {
      var m := Min(n, |xs|);
      ChunksFlatten(xs[m..], n);
      assert Chunks(xs, n)[1..] == Chunks(xs[m..], n);
      assert xs[..m] + xs[m..] == xs;
    }
  }

  /** Every chunk is non-empty and holds at most n elements; all but the last hold exactly n. */
  lemma {:induction false} ChunksSizes<T>(xs: seq<T>, n: nat, k: nat)
    requires n > 0 && k < |Chunks(xs, n)|
    ensures 0 < |Chunks(xs, n)[k]| <= n
    ensures k + 1 < |Chunks(xs, n)| ==> |Chunks(xs, n)[k]| == n
  {
    ChunksAt(xs, n, k);
    ChunksCount(xs, n);
    if k + 1 < |Chunks(xs, n)| {
      ChunksAt(xs, n, k + 1);
    }
  }

  /** Flattening distributes over concatenation. */
  lemma {:induction false} FlattenAppend<T>(a: seq<seq<T>>, b: seq<seq<T>>)
    ensures Flatten(a + b) == Flatten(a) + Flatten(b)
    decreases |a|
  {
    if |a| == 0 {
      assert a + b == b;
    } else {
      assert (a + b)[0] == a[0];
      assert (a + b)[1..] == a[1..] + b;
      FlattenAppend(a[1..], b);
      assert a[0] + (Flatten(a[1..]) + Flatten(b)) == (a[0] + Flatten(a[1..])) + Flatten(b);
    }
  }
}

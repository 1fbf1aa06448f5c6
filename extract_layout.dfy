/**
 * The layout extractor's conversion of a flat transform matrix into rows
 * of four, the form written into the layout JSON.
 */
module ExtractLayout {
  import opened Chunking

  /** The n-th row starts at element 4n. */
  lemma {:induction false} RowStart(k: nat)
    ensures Start(4, k) == 4 * k
  {
    if k > 0 {
      RowStart(k - 1);
    }
  }

  /**
   * `convert_matrix_to_4x4_list`: slices of four taken at 0, 4, 8, ...;
   * Python slicing cuts the last one at the end of the list.
   */
  method ConvertMatrixTo4x4List<T>(value: seq<T>) returns (rows: seq<seq<T>>)
    ensures rows == Chunks(value, 4)
  {
    ChunksCount(value, 4);
    rows := [];
    var i := 0;
    while i < |value|
      invariant |rows| <= |Chunks(value, 4)|
      invariant i == Start(4, |rows|)
      invariant rows == Chunks(value, 4)[..|rows|]
      decreases |value| - i
    {
      if |rows| == |Chunks(value, 4)| {
        assert false;
      }
      ChunksAt(value, 4, |rows|);
      StartShift(4, |rows|);
      rows := rows + [value[i..Min(i + 4, |value|)]];
      i := i + 4;
    }
    if |rows| < |Chunks(value, 4)| {
      StartMono(4, |rows|, |Chunks(value, 4)| - 1);
    }
  }

  lemma {:induction false} StartMono(n: nat, j: nat, k: nat)
    requires j <= k
    ensures Start(n, j) <= Start(n, k)
    decreases k
  {
    if j < k {
      StartMono(n, j, k - 1);
    }
  }

  /** Row k is the slice [4k, 4k + 4) of the input, cut at its end. */
  lemma RowsAreSlices<T>(value: seq<T>, k: nat)
    requires k < |Chunks(value, 4)|
    ensures 4 * k < |value|
    ensures Chunks(value, 4)[k] == value[4 * k..Min(4 * k + 4, |value|)]
  {
    ChunksAt(value, 4, k);
    RowStart(k);
  }

  /** Joining the rows gives back the input list. */
  lemma RowsJoin<T>(value: seq<T>)
    ensures Flatten(Chunks(value, 4)) == value
  {
    ChunksFlatten(value, 4);
  }

  /** There are ceil(n / 4) rows, each of four elements except possibly the last. */
  lemma RowCount<T>(value: seq<T>, k: nat)
    ensures |Chunks(value, 4)| == (|value| + 3) / 4
    ensures k < |Chunks(value, 4)| ==> 0 < |Chunks(value, 4)[k]| <= 4
    ensures k + 1 < |Chunks(value, 4)| ==> |Chunks(value, 4)[k]| == 4
  {
    ChunksCount(value, 4);
    RowStart(|Chunks(value, 4)|);
    if |value| > 0 {
      RowStart(|Chunks(value, 4)| - 1);
    }
    if k < |Chunks(value, 4)| {
      ChunksSizes(value, 4, k);
    }
  }

  /** Sixteen elements become their four consecutive rows of four. */
  lemma SixteenRows<T>(r0: seq<T>, r1: seq<T>, r2: seq<T>, r3: seq<T>)
    requires |r0| == |r1| == |r2| == |r3| == 4
    ensures Chunks(r0 + (r1 + (r2 + r3)), 4) == [r0, r1, r2, r3]
  {
    ChunksPrepend(r3, [], 4);
    assert r3 + [] == r3;
    ChunksPrepend(r2, r3, 4);
    ChunksPrepend(r1, r2 + r3, 4);
    ChunksPrepend(r0, r1 + (r2 + r3), 4);
  }

  /** The flat identity becomes the 4 x 4 identity. */
  lemma IdentityRows()
    ensures Chunks([1, 0, 0, 0] + ([0, 1, 0, 0] + ([0, 0, 1, 0] + [0, 0, 0, 1])), 4)
         == [[1, 0, 0, 0], [0, 1, 0, 0], [0, 0, 1, 0], [0, 0, 0, 1]]
  {
    SixteenRows([1, 0, 0, 0], [0, 1, 0, 0], [0, 0, 1, 0], [0, 0, 0, 1]);
  }
}

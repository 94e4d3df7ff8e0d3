/** Splitting the visited list into bounded-size batches for the checkpoint
    file (`chunk_generator` in main.py). */
module Chunking {

  /** The batch size `save_progress` uses (the default of `chunk_generator`). */
  const ChunkSize: nat := 1000

  /** Concatenation of a sequence of chunks, in order. */
  function Flatten<T>(cs: seq<seq<T>>): seq<T>
  {
    if cs == [] then [] else cs[0] + Flatten(cs[1..])
  }

  function Min(a: int, b: int): int
  {
    if a <= b then a else b
  }

  /** The slices `data[j:j+n]` for `j` in `range(i, len(data), n)`. */
  function ChunksFrom<T>(data: seq<T>, n: nat, i: nat): (r: seq<seq<T>>)
    requires n > 0 && i <= |data|
    ensures forall k :: 0 <= k < |r| ==> 0 < |r[k]| <= n
    ensures r == [] <==> i == |data|
    decreases |data| - i
  {
    if i == |data| then []
    else if |data| - i <= n then [data[i..]]
    else [data[i .. i + n]] + ChunksFrom(data, n, i + n)
  }

  lemma {:induction false} FlattenFrom<T>(data: seq<T>, n: nat, i: nat)
    requires n > 0 && i <= |data|
    ensures Flatten(ChunksFrom(data, n, i)) == data[i..]
    decreases |data| - i
  {
    var r := ChunksFrom(data, n, i);
    if i < |data| {
      if |data| - i <= n {
        assert r == [data[i..]];
        assert Flatten(r) == data[i..] + Flatten([]);
      } else {
        var rest := ChunksFrom(data, n, i + n);
        FlattenFrom(data, n, i + n);
        assert r == [data[i .. i + n]] + rest;
        assert r[1..] == rest;
        assert data[i .. i + n] + data[i + n ..] == data[i..];
      }
    }
  }

  /** `chunk_generator(data, n)`: the slices `data[i:i+n]` for `i` in
      `range(0, len(data), n)`. Each is non-empty and holds at most `n`
      entries, and empty input yields no chunk at all. */
  function Chunks<T>(data: seq<T>, n: nat): (r: seq<seq<T>>)
    requires n > 0
    ensures forall k :: 0 <= k < |r| ==> 0 < |r[k]| <= n
    ensures r == [] <==> data == []
  {
    ChunksFrom(data, n, 0)
  }

  /** Concatenating the chunks gives back the data exactly, in order. */
  lemma ChunksConcat<T>(data: seq<T>, n: nat)
    requires n > 0
    ensures Flatten(Chunks(data, n)) == data
  {
    FlattenFrom(data, n, 0);
    assert data[0..] == data;
  }

  /** Offset of the k-th slice, `k * n`, counted up one stride at a time. */
  function Stride(k: nat, n: nat): nat
  {
    if k == 0 then 0 else Stride(k - 1, n) + n
  }

  lemma {:induction false} StrideIsProduct(k: nat, n: nat)
    ensures Stride(k, n) == k * n
  {
    if k > 0 {
      StrideIsProduct(k - 1, n);
      assert (k - 1) * n + n == k * n;
    }
  }

  lemma {:induction false} CountFrom<T>(data: seq<T>, n: nat, i: nat)
    requires n > 0 && i <= |data|
    ensures |data| - i <= Stride(|ChunksFrom(data, n, i)|, n)
    ensures |ChunksFrom(data, n, i)| > 0 ==> Stride(|ChunksFrom(data, n, i)| - 1, n) < |data| - i
    decreases |data| - i
  {
    if |data| - i > n {
      CountFrom(data, n, i + n);
      assert |ChunksFrom(data, n, i)| == |ChunksFrom(data, n, i + n)| + 1;
    }
  }

  /** There are ceil(|data| / n) chunks: the smallest count whose n-fold
      covers the data. */
  lemma ChunkCount<T>(data: seq<T>, n: nat)
    requires n > 0
    ensures |data| <= |Chunks(data, n)| * n
    ensures |Chunks(data, n)| > 0 ==> (|Chunks(data, n)| - 1) * n < |data|
  {
    var c := |Chunks(data, n)|;
    CountFrom(data, n, 0);
    StrideIsProduct(c, n);
    if c > 0 {
      StrideIsProduct(c - 1, n);
    }
  }

  lemma {:induction false} ChunkAtFrom<T>(data: seq<T>, n: nat, i: nat, k: nat)
    requires n > 0 && i <= |data|
    requires k < |ChunksFrom(data, n, i)|
    ensures i + Stride(k, n) < |data|
    ensures ChunksFrom(data, n, i)[k] == data[i + Stride(k, n) .. Min(i + Stride(k, n) + n, |data|)]
    decreases |data| - i
  {
    var r := ChunksFrom(data, n, i);
    if k == 0 {
      assert Stride(0, n) == 0;
      if |data| - i <= n {
        assert r == [data[i..]];
        assert Min(i + n, |data|) == |data|;
      } else {
        assert r == [data[i .. i + n]] + ChunksFrom(data, n, i + n);
        assert Min(i + n, |data|) == i + n;
      }
    } else {
      assert |data| - i > n;
      var rest := ChunksFrom(data, n, i + n);
      assert r == [data[i .. i + n]] + rest;
      assert r[k] == rest[k - 1];
      ChunkAtFrom(data, n, i + n, k - 1);
      var start := i + Stride(k, n);
      assert Stride(k, n) == Stride(k - 1, n) + n;
      assert i + n + Stride(k - 1, n) == start;
      assert rest[k - 1] == data[start .. Min(start + n, |data|)];
    }
  }

  /** The k-th chunk is exactly the Python slice `data[k*n : k*n + n]`: the
      generator's range form. */
  lemma ChunkAt<T>(data: seq<T>, n: nat, k: nat)
    requires n > 0
    requires k < |Chunks(data, n)|
    ensures k * n < |data|
    ensures Chunks(data, n)[k] == data[k * n .. Min(k * n + n, |data|)]
  {
    ChunkAtFrom(data, n, 0, k);
    StrideIsProduct(k, n);
  }

  lemma {:induction false} FullFrom<T>(data: seq<T>, n: nat, i: nat, k: nat)
    requires n > 0 && i <= |data|
    requires k + 1 < |ChunksFrom(data, n, i)|
    ensures |ChunksFrom(data, n, i)[k]| == n
    decreases |data| - i
  {
    assert |data| - i > n;
    if k > 0 {
      assert ChunksFrom(data, n, i)[k] == ChunksFrom(data, n, i + n)[k - 1];
      FullFrom(data, n, i + n, k - 1);
    }
  }

  /** Every chunk but the last is full. */
  lemma AllButLastFull<T>(data: seq<T>, n: nat, k: nat)
    requires n > 0
    requires k + 1 < |Chunks(data, n)|
    ensures |Chunks(data, n)[k]| == n
  {
    FullFrom(data, n, 0, k);
  }
}

/**
  The Batcher of the embedding script: get_batches appends rows to a batch and yields
  it when its length equals batch_size, then yields whatever is left. Chunks is the
  sequence of batches it yields, stated recursively.
 */
module Batching {
  import opened Sequences

  /**
    The batches of s for a batch size n. When n <= 0 the length test never succeeds,
    so a non-empty input comes out as one batch.
   */
  function Chunks<T>(s: seq<T>, n: int): seq<seq<T>>
    decreases |s|
  {
    if s == [] then []
    else if n <= 0 || |s| <= n then [s]
    else [s[..n]] + Chunks(s[n..], n)
  }

  /** A full batch at position from: it is the next batch, and the batches of the rest follow it. */
  lemma ChunksFull<T>(s: seq<T>, n: int, from: int, to: int)
    requires n >= 1 && 0 <= from && to == from + n <= |s|
    ensures Chunks(s[from..], n) == [s[from..to]] + Chunks(s[to..], n)
  {
    var r := s[from..];
    assert r[..n] == s[from..to] && r[n..] == s[to..];
    if to == |s| {
      assert r == s[from..to] && s[to..] == [];
    }
  }

  /** Fewer than n rows left (or n <= 0): they form the last batch, if there are any. */
  lemma ChunksRest<T>(s: seq<T>, n: int, from: int)
    requires 0 <= from <= |s| && (n >= 1 ==> |s| - from < n)
    ensures Chunks(s[from..], n) == if from == |s| then [] else [s[from..]]
  {
  }

  /** Concatenating the batches in order gives back the rows exactly. */
  lemma {:induction false} FlattenChunks<T>(s: seq<T>, n: int)
    ensures Flatten(Chunks(s, n)) == s
  {
    if s != [] && n > 0 && |s| > n {
      FlattenChunks(s[n..], n);
      var cs := Chunks(s, n);
      assert cs[0] == s[..n] && cs[1..] == Chunks(s[n..], n);
      assert s == s[..n] + s[n..];
    }
  }

  /** No batch is empty, and there are batches exactly when there are rows. */
  lemma {:induction false} ChunksNonEmpty<T>(s: seq<T>, n: int)
    ensures Chunks(s, n) == [] <==> s == []
    ensures forall j :: 0 <= j < |Chunks(s, n)| ==> Chunks(s, n)[j] != []
  {
    if s != [] && n > 0 && |s| > n {
      ChunksNonEmpty(s[n..], n);
      var cs := Chunks(s, n);
      assert cs[1..] == Chunks(s[n..], n);
      forall j | 1 <= j < |cs| ensures cs[j] != [] {
        assert cs[j] == cs[1..][j - 1];
      }
    }
  }

  /**
    With n >= 1 there are ceil(|s| / n) batches: k batches where (k - 1) * n < |s| <= k * n.
    Every batch but the last has exactly n rows; the last has the remaining
    |s| - (k - 1) * n rows, so between 1 and n.
   */
  lemma {:induction false} ChunkSizes<T>(s: seq<T>, n: int)
    requires n >= 1
    ensures s != [] ==> (|Chunks(s, n)| - 1) * n < |s| <= |Chunks(s, n)| * n
    ensures forall j :: 0 <= j < |Chunks(s, n)| - 1 ==> |Chunks(s, n)[j]| == n
    ensures s != [] ==> |Chunks(s, n)[|Chunks(s, n)| - 1]| == |s| - (|Chunks(s, n)| - 1) * n
    ensures s != [] ==> 1 <= |Chunks(s, n)[|Chunks(s, n)| - 1]| <= n
  {
    var cs := Chunks(s, n);
    if s != [] && |s| > n {
      var rest := s[n..];
      ChunkSizes(rest, n);
      var rs := Chunks(rest, n);
      assert cs == [s[..n]] + rs;
      assert |cs| * n == |rs| * n + n && (|cs| - 1) * n == (|rs| - 1) * n + n;
      forall j | 1 <= j < |cs| - 1 ensures |cs[j]| == n {
        assert cs[j] == rs[j - 1];
      }
      assert cs[|cs| - 1] == rs[|rs| - 1];
    }
  }

  /** With n <= 0 a non-empty input is a single batch. */
  lemma {:induction false} NonPositiveSizeSingleBatch<T>(s: seq<T>, n: int)
    requires n <= 0 && s != []
    ensures Chunks(s, n) == [s]
  {
  }
}

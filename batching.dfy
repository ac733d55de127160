/** `split_iterable`: cutting the word list into the chunks the thread pool maps over. */
module Batching {
  import opened Seqs

  /** The default chunk size of `split_iterable`. */
  const ChunkSize: nat := 5

  /** `iterable[i : i + size]` for i in `range(0, len(iterable), size)`; Python's
      slice stops at the end of the list, so only the last chunk can be short.
      A size of 0 makes `range` raise, hence the precondition. */
  function Chunks<T>(xs: seq<T>, size: nat): (cs: seq<seq<T>>)
    requires size > 0
    ensures forall i | 0 <= i < |cs| :: 0 < |cs[i]| <= size
    decreases |xs|
  {
    if |xs| == 0 then []
    else if |xs| <= size then [xs]
    else [xs[..size]] + Chunks(xs[size..], size)
  }

  /** Concatenating the chunks gives back the list. */
  lemma {:induction false} ChunksConcat<T>(xs: seq<T>, size: nat)
    requires size > 0
    ensures Concat(Chunks(xs, size)) == xs
    decreases |xs|
  {
    if |xs| == 0 {
    } else if |xs| <= size {
      ConcatSingleton(xs);
    } else {
      ChunksConcat(xs[size..], size);
      ConcatCons(xs[..size], Chunks(xs[size..], size));
      assert xs[..size] + xs[size..] == xs;
    }
  }

  /** No chunk is empty, every chunk but the last holds exactly `size` items, the
      last holds 1 to `size`, and there are ceil(|xs| / size) chunks. */
  lemma {:induction false} ChunksShape<T>(xs: seq<T>, size: nat)
    requires size > 0
    ensures var cs := Chunks(xs, size);
      && (forall i | 0 <= i < |cs| :: 0 < |cs[i]| <= size)
      && (forall i | 0 <= i < |cs| - 1 :: |cs[i]| == size)
      && (|xs| == 0 <==> |cs| == 0)
      && (|cs| > 0 ==> (|cs| - 1) * size < |xs| <= |cs| * size)
    decreases |xs|
  {
    if |xs| > size {
      var rest := Chunks(xs[size..], size);
      ChunksShape(xs[size..], size);
      var cs := Chunks(xs, size);
      assert cs == [xs[..size]] + rest;
      assert forall i | 1 <= i < |cs| :: cs[i] == rest[i - 1];
      OneMoreChunk(|rest|, size);
    }
  }

  /** The bounds of a chunk count, one chunk further on. */
  lemma OneMoreChunk(n: nat, size: nat)
    ensures (n + 1 - 1) * size == (n - 1) * size + size && (n + 1) * size == n * size + size
  {
  }

  /** Item r of chunk q is item q * size + r of the list: the chunks keep every
      item at its place. */
  lemma {:induction false} ChunkIndex<T>(xs: seq<T>, size: nat, q: nat, r: nat)
    requires size > 0 && r < size && q * size + r < |xs|
    ensures var cs := Chunks(xs, size);
      q < |cs| && r < |cs[q]| && cs[q][r] == xs[q * size + r]
    decreases q
  {
    var i := q * size + r;
    if q > 0 {
      var i' := StepBack(q, size, r);
      var tail := xs[size..];
      ChunkIndex(tail, size, q - 1, r);
      assert Chunks(xs, size) == [xs[..size]] + Chunks(tail, size);
      assert tail[i'] == xs[i];
    }
  }

  /** Position q * size + r, seen from the list that starts one chunk later. */
  lemma StepBack(q: nat, size: nat, r: nat) returns (i': nat)
    requires q > 0
    ensures i' == (q - 1) * size + r && i' + size == q * size + r
  {
    i' := (q - 1) * size + r;
  }
}

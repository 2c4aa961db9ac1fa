/** The `chunk` helper of ytSearch.ts: consecutive slices of at most `size`
    elements, used to respect the 50-ids-per-request limit of the video and
    channel lookups. */
module Chunking {
  import opened Seqs

  /** `for (i = 0; i < arr.length; i += size) res.push(arr.slice(i, i + size))`.
      A non-positive size would loop forever in the source, so it is excluded. */
  function Chunk<T>(arr: seq<T>, size: nat): (r: seq<seq<T>>)
    requires size > 0
    ensures forall k :: 0 <= k < |r| ==> 0 < |r[k]| <= size
    ensures forall k :: 0 <= k < |r| - 1 ==> |r[k]| == size
    ensures |arr| == 0 <==> |r| == 0
    decreases |arr|
  {
    if |arr| == 0 then []
    else if |arr| <= size then [arr]
    else [arr[..size]] + Chunk(arr[size..], size)
  }

  /** Concatenating the chunks gives back the input. */
  lemma {:induction false} ChunkFlatten<T>(arr: seq<T>, size: nat)
    requires size > 0
    ensures Flatten(Chunk(arr, size)) == arr
    decreases |arr|
  {
    if |arr| == 0 {
    } else if |arr| <= size {
      assert Flatten([arr]) == Flatten([]) + arr;
    } else {
      ChunkFlatten(arr[size..], size);
      FlattenCons(arr[..size], Chunk(arr[size..], size));
      assert arr[..size] + arr[size..] == arr;
    }
  }

  /** There are exactly the ceiling of |arr| / size chunks: the chunk count
      k is the least number with k * size >= |arr|. */
  lemma {:induction false} ChunkCount<T>(arr: seq<T>, size: nat)
    requires size > 0
    ensures var k := |Chunk(arr, size)|;
      |arr| <= k * size && (k == 0 || (k - 1) * size < |arr|)
    decreases |arr|
  {
    if |arr| == 0 {
    } else if |arr| <= size {
      assert |Chunk(arr, size)| == 1;
    } else {
      ChunkCount(arr[size..], size);
      var k' := |Chunk(arr[size..], size)|;
      assert |Chunk(arr, size)| == k' + 1;
      assert (k' + 1) * size == k' * size + size;
      assert k' > 0;
      assert (k' - 1) * size == k' * size - size;
    }
  }
}

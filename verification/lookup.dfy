/** The id-keyed lookups of ytSearch.ts (`videoDetailsMap`,
    `channelDetailsMap`): a JavaScript Map filled by `map.set(item.id, item)`
    for every returned item, batch after batch. */
module Lookup {
  import opened Wrappers
  import opened Seqs

  /** The ids carried by `items`. */
  function Ids<T>(items: seq<T>, key: T -> string): set<string> {
    set i | 0 <= i < |items| :: key(items[i])
  }

  /** No later item has the same id as item i. */
  predicate LastWithKey<T>(items: seq<T>, key: T -> string, i: nat)
    requires i < |items|
  {
    forall j :: i < j < |items| ==> key(items[j]) != key(items[i])
  }

  /** `for (const item of items) m.set(key(item), item)`: a set on an id
      already present overwrites it, so the last item with an id wins. */
  function SetAll<T>(m: map<string, T>, items: seq<T>, key: T -> string): (r: map<string, T>)
    ensures r.Keys == m.Keys + Ids(items, key)
    ensures forall i :: 0 <= i < |items| && LastWithKey(items, key, i) ==> r[key(items[i])] == items[i]
    ensures forall k :: k in m && k !in Ids(items, key) ==> r[k] == m[k]
    decreases |items|
  {
    if |items| == 0 then m
    else
      var n := |items| - 1;
      var prev := SetAll(m, items[..n], key);
      IdsSnoc(items, key);
      LastWithKeyPrefix(items, key);
      prev[key(items[n]) := items[n]]
  }

  lemma IdsSnoc<T>(items: seq<T>, key: T -> string)
    requires |items| > 0
    ensures Ids(items, key) == Ids(items[..|items| - 1], key) + {key(items[|items| - 1])}
  {
    var n := |items| - 1;
    forall x | x in Ids(items, key)
      ensures x in Ids(items[..n], key) + {key(items[n])}
    {
      var i :| 0 <= i < |items| && key(items[i]) == x;
      if i < n {
        assert key(items[..n][i]) == x;
      }
    }
  }

  /** An item that is last with its id, other than the final one, is last in
      the prefix and has a different id from the final item. */
  lemma LastWithKeyPrefix<T>(items: seq<T>, key: T -> string)
    requires |items| > 0
    ensures forall i :: 0 <= i < |items| - 1 && LastWithKey(items, key, i) ==>
      LastWithKey(items[..|items| - 1], key, i) && key(items[i]) != key(items[|items| - 1])
  {
  }

  /** `map.get(k)`: present or `undefined`. */
  function Get<T>(m: map<string, T>, k: string): (r: Option<T>)
    ensures r.Some? <==> k in m
    ensures r.Some? ==> r.value == m[k]
  {
    if k in m then Some(m[k]) else None
  }

  /** The outer loop over batches: each batch's items are set in turn. */
  function SetBatches<T>(m: map<string, T>, batches: seq<seq<T>>, key: T -> string): map<string, T>
    decreases |batches|
  {
    if |batches| == 0 then m
    else SetAll(SetBatches(m, batches[..|batches| - 1], key), batches[|batches| - 1], key)
  }

  /** Setting two runs of items is setting their concatenation. */
  lemma {:induction false} SetAllAppend<T>(m: map<string, T>, a: seq<T>, b: seq<T>, key: T -> string)
    ensures SetAll(m, a + b, key) == SetAll(SetAll(m, a, key), b, key)
    decreases |b|
  {
    if |b| == 0 {
      assert a + b == a;
    } else {
      var n := |b| - 1;
      assert (a + b)[..|a + b| - 1] == a + b[..n];
      SetAllAppend(m, a, b[..n], key);
    }
  }

  /** Batching does not matter: the map built batch by batch is the map built
      from all returned items in order. */
  lemma {:induction false} SetBatchesFlatten<T>(m: map<string, T>, batches: seq<seq<T>>, key: T -> string)
    ensures SetBatches(m, batches, key) == SetAll(m, Flatten(batches), key)
    decreases |batches|
  {
    if |batches| > 0 {
      var n := |batches| - 1;
      SetBatchesFlatten(m, batches[..n], key);
      SetAllAppend(m, Flatten(batches[..n]), batches[n], key);
    }
  }

  /** The map built from empty start: its keys are exactly the returned ids,
      and each id is bound to the last item that carries it. */
  lemma BuiltMap<T>(batches: seq<seq<T>>, key: T -> string)
    ensures SetBatches(map[], batches, key).Keys == Ids(Flatten(batches), key)
    ensures forall i :: 0 <= i < |Flatten(batches)| && LastWithKey(Flatten(batches), key, i) ==>
      SetBatches(map[], batches, key)[key(Flatten(batches)[i])] == Flatten(batches)[i]
  {
    SetBatchesFlatten(map[], batches, key);
  }
}

/** Sequence helpers: `Array.prototype.flat()` on arrays of arrays. */
module Seqs {

  /** Concatenation of all inner sequences, in order. */
  function Flatten<T>(xss: seq<seq<T>>): (r: seq<T>)
    decreases |xss|
  {
    if |xss| == 0 then [] else Flatten(xss[..|xss| - 1]) + xss[|xss| - 1]
  }

  /** Flattening distributes over concatenation of the outer sequence. */
  lemma {:induction false} FlattenAppend<T>(a: seq<seq<T>>, b: seq<seq<T>>)
    ensures Flatten(a + b) == Flatten(a) + Flatten(b)
    decreases |b|
  {
    if |b| == 0 {
      assert a + b == a;
    } else {
      var b' := b[..|b| - 1];
      assert (a + b)[..|a + b| - 1] == a + b';
      FlattenAppend(a, b');
    }
  }

  /** Flattening peels off the first inner sequence. */
  lemma FlattenCons<T>(x: seq<T>, rest: seq<seq<T>>)
    ensures Flatten([x] + rest) == x + Flatten(rest)
  {
    FlattenAppend([x], rest);
    assert Flatten([x]) == Flatten([]) + x;
  }

  /** `xs.map(x => keep(x) ? f(x) : null).filter(y => y !== null)`. */
  function FilterMap<T, U>(xs: seq<T>, keep: T -> bool, f: T -> U): (r: seq<U>)
    ensures |r| <= |xs|
    decreases |xs|
  {
    if |xs| == 0 then []
    else
      var n := |xs| - 1;
      FilterMap(xs[..n], keep, f) + (if keep(xs[n]) then [f(xs[n])] else [])
  }

  /** The positions of the elements that satisfy `keep`, in increasing order. */
  function Positions<T>(xs: seq<T>, keep: T -> bool): (idx: seq<nat>)
    ensures forall k :: 0 <= k < |idx| ==> idx[k] < |xs| && keep(xs[idx[k]])
    ensures forall k, l :: 0 <= k < l < |idx| ==> idx[k] < idx[l]
    ensures forall i :: 0 <= i < |xs| && keep(xs[i]) ==> i in idx
    decreases |xs|
  {
    if |xs| == 0 then []
    else
      var n := |xs| - 1;
      var prev := Positions(xs[..n], keep);
      assert forall k :: 0 <= k < |prev| ==> xs[..n][prev[k]] == xs[prev[k]];
      prev + (if keep(xs[n]) then [n] else [])
  }

  /** FilterMap yields f of the kept elements, in their original order. */
  lemma {:induction false} FilterMapAt<T, U>(xs: seq<T>, keep: T -> bool, f: T -> U)
    ensures |FilterMap(xs, keep, f)| == |Positions(xs, keep)|
    ensures forall k :: 0 <= k < |Positions(xs, keep)| ==>
      FilterMap(xs, keep, f)[k] == f(xs[Positions(xs, keep)[k]])
    decreases |xs|
  {
    if |xs| > 0 {
      var n := |xs| - 1;
      FilterMapAt(xs[..n], keep, f);
      var prev := Positions(xs[..n], keep);
      var before := FilterMap(xs[..n], keep, f);
      assert FilterMap(xs, keep, f) == before + (if keep(xs[n]) then [f(xs[n])] else []);
      assert Positions(xs, keep) == prev + (if keep(xs[n]) then [n] else []);
      forall k | 0 <= k < |prev|
        ensures FilterMap(xs, keep, f)[k] == f(xs[Positions(xs, keep)[k]])
      {
        assert xs[..n][prev[k]] == xs[prev[k]];
      }
    }
  }
}

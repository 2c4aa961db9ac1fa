/** `[...new Set(xs)]`, used by ytSearch.ts to collect the video and channel
    ids to look up: a JavaScript Set ignores repeated insertions and iterates
    in first-insertion order. */
module Dedup {

  predicate NoDuplicates(xs: seq<string>) {
    forall i, j :: 0 <= i < j < |xs| ==> xs[i] != xs[j]
  }

  /** Position of the first occurrence of x. */
  function FirstIndex(xs: seq<string>, x: string): (i: nat)
    requires x in xs
    ensures i < |xs| && xs[i] == x && x !in xs[..i]
  {
    if xs[0] == x then 0
    else
      var i := 1 + FirstIndex(xs[1..], x);
      assert xs[..i] == [xs[0]] + xs[1..][..i - 1];
      i
  }

  /** Insertion of xs, in order, into an initially empty Set. */
  function Distinct(xs: seq<string>): (r: seq<string>)
    ensures NoDuplicates(r)
    ensures forall x :: x in r <==> x in xs
    decreases |xs|
  {
    if |xs| == 0 then []
    else
      var prev := Distinct(xs[..|xs| - 1]);
      var x := xs[|xs| - 1];
      if x in prev then prev else prev + [x]
  }

  /** The first occurrence is unchanged by appending. */
  lemma FirstIndexPrefix(xs: seq<string>, x: string)
    requires |xs| > 0 && x in xs[..|xs| - 1]
    ensures FirstIndex(xs, x) == FirstIndex(xs[..|xs| - 1], x)
  {
  }

  /** The Set keeps first-occurrence order: the ids come out ordered by where
      each first appears in the input. */
  lemma {:induction false} DistinctOrder(xs: seq<string>)
    ensures forall i, j :: 0 <= i < j < |Distinct(xs)| ==>
      FirstIndex(xs, Distinct(xs)[i]) < FirstIndex(xs, Distinct(xs)[j])
    decreases |xs|
  {
    if |xs| > 0 {
      var front := xs[..|xs| - 1];
      var prev := Distinct(front);
      var r := Distinct(xs);
      DistinctOrder(front);
      forall k | 0 <= k < |prev|
        ensures FirstIndex(xs, prev[k]) == FirstIndex(front, prev[k]) < |front|
      {
        FirstIndexPrefix(xs, prev[k]);
      }
      if xs[|xs| - 1] !in prev {
        assert FirstIndex(xs, xs[|xs| - 1]) == |xs| - 1;
      }
      forall i, j | 0 <= i < j < |r|
        ensures FirstIndex(xs, r[i]) < FirstIndex(xs, r[j])
      {
        assert r[i] == prev[i];
        if j < |prev| {
          assert r[j] == prev[j];
        }
      }
    }
  }

  /** The length of the Set is at most that of its input. */
  lemma {:induction false} DistinctLength(xs: seq<string>)
    ensures |Distinct(xs)| <= |xs|
    decreases |xs|
  {
    if |xs| > 0 {
      DistinctLength(xs[..|xs| - 1]);
    }
  }

  /** Insertions into a Set, as the runtime performs them: each element is
      added unless already present. */
  method SetInsertionOrder(xs: seq<string>) returns (r: seq<string>)
    ensures r == Distinct(xs)
  {
    var seen: set := {};
    r := [];
    var i := 0;
    while i < |xs|
      invariant 0 <= i <= |xs|
      invariant r == Distinct(xs[..i])
      invariant seen == set x | x in r
    {
      assert xs[..i + 1][..i] == xs[..i];
      if xs[i] !in seen {
        seen := seen + {xs[i]};
        r := r + [xs[i]];
      }
      i := i + 1;
    }
    assert xs[..|xs|] == xs;
  }
}

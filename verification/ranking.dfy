/** The ranking half of the feed handler (feed.ts): the texts sent for
    embedding, the pairing of each video with its embedding and similarity
    score, and the descending sort on that score. */
module Ranking {
  import opened Wrappers
  import opened YouTube

  /** The `values` of one embedding; the API may leave it out. */
  type Vector = Option<seq<real>>

  datatype Embedding = Embedding(values: Vector)

  /** A video spread into a new object with its embedding and score. */
  datatype ScoredVideo = ScoredVideo(video: EnrichedVideo, embedding: Vector, similarityScore: real)

  /** Reading `.values` of an embedding the response does not have. */
  datatype RankError = MissingEmbedding

  /** A JavaScript template literal renders a missing description as "undefined". */
  function Interpolated(s: Option<string>): string {
    s.GetOr("undefined")
  }

  /** `${video.snippet.title} ${video.snippet.description}`. */
  function VideoText(v: EnrichedVideo): string {
    v.item.snippet.title + " " + Interpolated(v.item.snippet.description)
  }

  /** `[userPrompt, ...videoTexts]`: the prompt first, then one text per
      video, in the order of the videos. */
  function EmbeddingInputs(userPrompt: string, videos: seq<EnrichedVideo>): (r: seq<string>)
    ensures |r| == |videos| + 1
    ensures r[0] == userPrompt
    ensures forall i :: 0 <= i < |videos| ==> r[i + 1] == VideoText(videos[i])
  {
    [userPrompt] + seq(|videos|, i requires 0 <= i < |videos| => VideoText(videos[i]))
  }

  /** `embeddings.embeddings?.[i].values` where entry `i` exists. */
  function VectorAt(embeddings: Option<seq<Embedding>>, i: nat): Vector
    requires embeddings.Some? ==> i < |embeddings.value|
  {
    if embeddings.Some? then embeddings.value[i].values else None
  }

  /** The response covers the prompt and every video. */
  predicate Covers(embeddings: Option<seq<Embedding>>, count: nat) {
    embeddings.Some? ==> count + 1 <= |embeddings.value|
  }

  /** The user vector from entry 0 and `videos.map((video, index) => ...)`
      with entry `index + 1`. A missing `embeddings` list leaves every vector
      undefined; a list too short to hold entry 0 and one entry per video
      throws. `similarity` stands for `cosineSimilarity`. */
  function Pair(videos: seq<EnrichedVideo>, embeddings: Option<seq<Embedding>>, similarity: (Vector, Vector) -> real)
    : (r: Result<seq<ScoredVideo>, RankError>)
    ensures r.Failure? <==> !Covers(embeddings, |videos|)
    ensures r.Success? ==> |r.value| == |videos|
    ensures r.Success? ==> forall i :: 0 <= i < |videos| ==>
      && r.value[i].video == videos[i]
      && r.value[i].embedding == VectorAt(embeddings, i + 1)
      && r.value[i].similarityScore == similarity(VectorAt(embeddings, 0), VectorAt(embeddings, i + 1))
  {
    if !Covers(embeddings, |videos|) then Failure(MissingEmbedding)
    else
      var user := VectorAt(embeddings, 0);
      Success(seq(|videos|, i requires 0 <= i < |videos| =>
        var v := VectorAt(embeddings, i + 1);
        ScoredVideo(videos[i], v, similarity(user, v))))
  }

  /** The videos of a scored list, with the added fields dropped. */
  function Videos(xs: seq<ScoredVideo>): (r: seq<EnrichedVideo>)
    ensures |r| == |xs|
    ensures forall i :: 0 <= i < |xs| ==> r[i] == xs[i].video
  {
    seq(|xs|, i requires 0 <= i < |xs| => xs[i].video)
  }

  /** Pairing keeps every video, in order, and nothing else. */
  lemma PairKeepsVideos(videos: seq<EnrichedVideo>, embeddings: Option<seq<Embedding>>, similarity: (Vector, Vector) -> real)
    requires Covers(embeddings, |videos|)
    ensures Videos(Pair(videos, embeddings, similarity).value) == videos
  {
  }

  /** Highest score first. */
  predicate NonIncreasing(xs: seq<ScoredVideo>) {
    forall i, j :: 0 <= i < j < |xs| ==> xs[i].similarityScore >= xs[j].similarityScore
  }

  /** The elements of `xs` with score `c`, in their order in `xs`. */
  function WithScore(xs: seq<ScoredVideo>, c: real): (r: seq<ScoredVideo>)
    ensures |r| <= |xs|
  {
    if |xs| == 0 then []
    else (if xs[0].similarityScore == c then [xs[0]] else []) + WithScore(xs[1..], c)
  }

  /** Puts `x` in front of the first element that does not score higher. */
  function Insert(x: ScoredVideo, xs: seq<ScoredVideo>): (r: seq<ScoredVideo>)
    ensures multiset(r) == multiset(xs) + multiset{x}
    ensures |r| == |xs| + 1
    ensures r[0] == if |xs| == 0 || xs[0].similarityScore <= x.similarityScore then x else xs[0]
  {
    if |xs| == 0 || xs[0].similarityScore <= x.similarityScore then [x] + xs
    else
      assert xs == [xs[0]] + xs[1..];
      [xs[0]] + Insert(x, xs[1..])
  }

  /** Inserting into a sorted list keeps it sorted. */
  lemma {:induction false} InsertSorted(x: ScoredVideo, xs: seq<ScoredVideo>)
    requires NonIncreasing(xs)
    ensures NonIncreasing(Insert(x, xs))
  {
    if |xs| > 0 && xs[0].similarityScore > x.similarityScore {
      var rest := Insert(x, xs[1..]);
      InsertSorted(x, xs[1..]);
      var r := Insert(x, xs);
      assert r == [xs[0]] + rest;
      assert rest[0].similarityScore <= xs[0].similarityScore;
      forall i, j | 0 <= i < j < |r|
        ensures r[i].similarityScore >= r[j].similarityScore
      {
        if i == 0 {
          assert rest[0].similarityScore >= rest[j - 1].similarityScore || j == 1;
        } else {
          assert r[i] == rest[i - 1] && r[j] == rest[j - 1];
        }
      }
    }
  }

  /** `sort((a, b) => b.similarityScore - a.similarityScore)`: the comparator
      orders by descending score and reports ties as equal, and
      Array.prototype.sort is stable, so tied videos keep their order. */
  function SortByScore(xs: seq<ScoredVideo>): (r: seq<ScoredVideo>)
    ensures multiset(r) == multiset(xs)
    ensures |r| == |xs|
    ensures NonIncreasing(r)
  {
    if |xs| == 0 then []
    else
      assert xs == [xs[0]] + xs[1..];
      InsertSorted(xs[0], SortByScore(xs[1..]));
      Insert(xs[0], SortByScore(xs[1..]))
  }

  /** Inserting `x` adds it in front of the elements of its own score and
      leaves every other score's elements alone. */
  lemma {:induction false} InsertWithScore(x: ScoredVideo, xs: seq<ScoredVideo>, c: real)
    ensures WithScore(Insert(x, xs), c) == (if x.similarityScore == c then [x] else []) + WithScore(xs, c)
  {
    if |xs| == 0 || xs[0].similarityScore <= x.similarityScore {
      assert ([x] + xs)[1..] == xs;
    } else {
      InsertWithScore(x, xs[1..], c);
      assert ([xs[0]] + Insert(x, xs[1..]))[1..] == Insert(x, xs[1..]);
    }
  }

  /** Stability: for every score, the videos with that score appear in the
      same order before and after sorting. */
  lemma {:induction false} SortStable(xs: seq<ScoredVideo>, c: real)
    ensures WithScore(SortByScore(xs), c) == WithScore(xs, c)
  {
    if |xs| > 0 {
      SortStable(xs[1..], c);
      InsertWithScore(xs[0], SortByScore(xs[1..]), c);
    }
  }

  /** The first element of a non-empty sequence with score `c` heads its `WithScore`. */
  lemma WithScoreHead(xs: seq<ScoredVideo>)
    requires |xs| > 0
    ensures WithScore(xs, xs[0].similarityScore) == [xs[0]] + WithScore(xs[1..], xs[0].similarityScore)
  {
  }

  /** An element of `xs` with score `c` shows up in `WithScore(xs, c)`. */
  lemma {:induction false} InWithScore(xs: seq<ScoredVideo>, j: nat)
    requires j < |xs|
    ensures xs[j] in WithScore(xs, xs[j].similarityScore)
  {
    if j > 0 {
      InWithScore(xs[1..], j - 1);
    }
  }

  /** Every element of `WithScore(xs, c)` has score `c` and comes from `xs`. */
  lemma {:induction false} WithScoreMembers(xs: seq<ScoredVideo>, c: real, y: ScoredVideo)
    requires y in WithScore(xs, c)
    ensures y.similarityScore == c && y in xs
  {
    if y != xs[0] || xs[0].similarityScore != c {
      WithScoreMembers(xs[1..], c, y);
    }
  }

  /** Two sequences sorted by descending score that agree on the order within
      every score are equal. */
  lemma {:induction false} SortedByScoreUnique(a: seq<ScoredVideo>, b: seq<ScoredVideo>)
    requires NonIncreasing(a) && NonIncreasing(b)
    requires forall c :: WithScore(a, c) == WithScore(b, c)
    ensures a == b
    decreases |a| + |b|
  {
    if |a| == 0 && |b| == 0 {
    } else if |a| == 0 {
      WithScoreHead(b);
      assert false;
    } else if |b| == 0 {
      WithScoreHead(a);
      assert false;
    } else {
      var ca, cb := a[0].similarityScore, b[0].similarityScore;
      InWithScore(a, 0);
      InWithScore(b, 0);
      WithScoreMembers(b, ca, a[0]);
      WithScoreMembers(a, cb, b[0]);
      assert ca == cb;
      WithScoreHead(a);
      WithScoreHead(b);
      assert a[0] == b[0] by {
        assert WithScore(a, ca)[0] == a[0];
        assert WithScore(b, ca)[0] == b[0];
      }
      forall c
        ensures WithScore(a[1..], c) == WithScore(b[1..], c)
      {
        assert WithScore(a, c) == WithScore(b, c);
        if c == ca {
          assert [a[0]] + WithScore(a[1..], c) == [b[0]] + WithScore(b[1..], c);
          assert ([a[0]] + WithScore(a[1..], c))[1..] == WithScore(a[1..], c);
          assert ([b[0]] + WithScore(b[1..], c))[1..] == WithScore(b[1..], c);
        } else {
          assert WithScore(a, c) == WithScore(a[1..], c);
          assert WithScore(b, c) == WithScore(b[1..], c);
        }
      }
      SortedByScoreUnique(a[1..], b[1..]);
      assert a == [a[0]] + a[1..];
      assert b == [b[0]] + b[1..];
    }
  }

  /** Any stable sort on descending score gives exactly `SortByScore`: it is
      the only ordering of the videos that puts higher scores first and keeps
      ties in their original order. */
  lemma StableSortIsSortByScore(xs: seq<ScoredVideo>, ys: seq<ScoredVideo>)
    requires NonIncreasing(ys)
    requires forall c :: WithScore(ys, c) == WithScore(xs, c)
    ensures ys == SortByScore(xs)
  {
    forall c
      ensures WithScore(ys, c) == WithScore(SortByScore(xs), c)
    {
      SortStable(xs, c);
    }
    SortedByScoreUnique(ys, SortByScore(xs));
  }

  /** Pairing followed by the sort. */
  function Rank(videos: seq<EnrichedVideo>, embeddings: Option<seq<Embedding>>, similarity: (Vector, Vector) -> real)
    : (r: Result<seq<ScoredVideo>, RankError>)
    ensures r.Failure? <==> !Covers(embeddings, |videos|)
  {
    match Pair(videos, embeddings, similarity)
    case Failure(e) => Failure(e)
    case Success(scored) => Success(SortByScore(scored))
  }

  /** `r` ranks `videos`: one record per video, highest score first, tied
      videos in their original order, each scored against the prompt's
      vector (entry 0 of the embeddings). */
  ghost predicate IsRankingOf(r: seq<ScoredVideo>, videos: seq<EnrichedVideo>, embeddings: Option<seq<Embedding>>, similarity: (Vector, Vector) -> real)
    requires Covers(embeddings, |videos|)
  {
    var scored := Pair(videos, embeddings, similarity).value;
    && |r| == |videos|
    && NonIncreasing(r)
    && multiset(r) == multiset(scored)
    && (forall c :: WithScore(r, c) == WithScore(scored, c))
    && (forall x :: x in r ==> x.video in videos && x.similarityScore == similarity(VectorAt(embeddings, 0), x.embedding))
    && (forall i :: 0 <= i < |videos| ==> exists x :: x in r && x.video == videos[i])
  }

  /** Pairing then sorting ranks the videos. */
  lemma RankOrders(videos: seq<EnrichedVideo>, embeddings: Option<seq<Embedding>>, similarity: (Vector, Vector) -> real)
    requires Covers(embeddings, |videos|)
    ensures IsRankingOf(Rank(videos, embeddings, similarity).value, videos, embeddings, similarity)
  {
    var scored := Pair(videos, embeddings, similarity).value;
    var r := Rank(videos, embeddings, similarity).value;
    forall c
      ensures WithScore(r, c) == WithScore(scored, c)
    {
      SortStable(scored, c);
    }
    forall x | x in r
      ensures x.video in videos && x.similarityScore == similarity(VectorAt(embeddings, 0), x.embedding)
    {
      assert x in multiset(scored);
      var k :| 0 <= k < |scored| && scored[k] == x;
    }
    forall i | 0 <= i < |videos|
      ensures exists x :: x in r && x.video == videos[i]
    {
      assert scored[i] in multiset(r);
    }
  }
}

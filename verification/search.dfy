/** `searchOnYt` of ytSearch.ts with its HTTP calls abstracted: each request
    is an oracle parameter returning the decoded response. The queries are
    searched, the results flattened, the distinct video and channel ids
    looked up in batches of 50, and the results enriched and filtered. */
module Search {
  import opened Wrappers
  import opened Seqs
  import opened Chunking
  import opened Dedup
  import opened YouTube
  import opened Lookup
  import opened Enrichment
  import opened Duration

  /** The largest number of ids the videos and channels endpoints accept. */
  const BatchSize: nat := 50

  /** One HTTP call: a rejected fetch (or undecodable body), or a decoded
      body whose `items` field may be missing. */
  datatype Response<T> = Failed | Ok(items: Option<seq<T>>)

  /** A lookup batch failed: the details and channel loops have no catch, so
      the whole search rejects. */
  datatype SearchError = LookupFailed

  /** The enriched videos, together with the id batches that were requested
      from the videos and channels endpoints. */
  datatype Outcome = Outcome(
    videos: seq<EnrichedVideo>,
    videoBatches: seq<seq<string>>,
    channelBatches: seq<seq<string>>)

  /** `data.items ?? []`, with the per-query `.catch(() => [])`. */
  function ItemsOrEmpty<T>(r: Response<T>): seq<T> {
    match r
    case Failed => []
    case Ok(items) => items.GetOr([])
  }

  /** The items each call returned, call by call. */
  function Returned<Q, T>(requests: seq<Q>, api: Q -> Response<T>): (r: seq<seq<T>>)
    ensures |r| == |requests|
    ensures forall k :: 0 <= k < |requests| ==> r[k] == ItemsOrEmpty(api(requests[k]))
  {
    seq(|requests|, k requires 0 <= k < |requests| => ItemsOrEmpty(api(requests[k])))
  }

  /** `Promise.all(searchRequests)` then `.flat()`: the results of all
      queries, in query order. */
  function SearchAll(searches: seq<string>, searchApi: string -> Response<SearchItem>): seq<SearchItem> {
    Flatten(Returned(searches, searchApi))
  }

  /** Leaving out request i leaves out its items. */
  lemma ReturnedWithout<Q, T>(requests: seq<Q>, api: Q -> Response<T>, i: nat)
    requires i < |requests|
    ensures Returned(requests[..i] + requests[i + 1..], api)
         == Returned(requests[..i], api) + Returned(requests[i + 1..], api)
  {
    var rest := requests[..i] + requests[i + 1..];
    forall k | 0 <= k < |rest|
      ensures Returned(rest, api)[k] == (Returned(requests[..i], api) + Returned(requests[i + 1..], api))[k]
    {
      if k >= i {
        assert rest[k] == requests[i + 1..][k - i];
      }
    }
  }

  /** The items of all requests split around request i. */
  lemma ReturnedAround<Q, T>(requests: seq<Q>, api: Q -> Response<T>, i: nat)
    requires i < |requests|
    ensures Returned(requests, api)
         == Returned(requests[..i], api) + [ItemsOrEmpty(api(requests[i]))] + Returned(requests[i + 1..], api)
  {
    var all := Returned(requests, api);
    forall k | 0 <= k < |all|
      ensures all[k] == (Returned(requests[..i], api) + [ItemsOrEmpty(api(requests[i]))] + Returned(requests[i + 1..], api))[k]
    {
      if k > i {
        assert requests[k] == requests[i + 1..][k - i - 1];
      }
    }
  }

  /** One failing query does not blank the feed: it contributes exactly what
      leaving it out would. */
  lemma FailedQueryContributesNothing(searches: seq<string>, searchApi: string -> Response<SearchItem>, i: nat)
    requires i < |searches| && searchApi(searches[i]).Failed?
    ensures SearchAll(searches, searchApi) == SearchAll(searches[..i] + searches[i + 1..], searchApi)
  {
    var before, after := Returned(searches[..i], searchApi), Returned(searches[i + 1..], searchApi);
    var empty: seq<SearchItem> := [];
    ReturnedAround(searches, searchApi, i);
    ReturnedWithout(searches, searchApi, i);
    assert Flatten([empty]) == [] by {
      FlattenCons(empty, []);
      assert [empty] + [] == [empty];
    }
    FlattenAppend(before + [empty], after);
    FlattenAppend(before, [empty]);
    FlattenAppend(before, after);
  }

  /** The decoded items of each batch, or None as soon as one call fails. */
  function FetchBatches<T>(batches: seq<seq<string>>, api: seq<string> -> Response<T>): (r: Option<seq<seq<T>>>)
    ensures r.None? <==> AnyFailed(batches, api)
    ensures r.Some? ==> r.value == Returned(batches, api)
    decreases |batches|
  {
    if |batches| == 0 then Some([])
    else
      var n := |batches| - 1;
      match FetchBatches(batches[..n], api)
      case None => None
      case Some(prev) =>
        var last := api(batches[n]);
        if last.Failed? then None else Some(prev + [ItemsOrEmpty(last)])
  }

  function VideoIdOf(v: SearchItem): string {
    v.videoId
  }

  function ChannelIdOf(v: SearchItem): string {
    v.snippet.channelId
  }

  function DetailsId(d: VideoDetails): string {
    d.id
  }

  function ChannelDetailsId(d: ChannelDetails): string {
    d.id
  }

  /** `videos.map(f)`. */
  function IdList(videos: seq<SearchItem>, f: SearchItem -> string): (r: seq<string>)
    ensures |r| == |videos| && forall i :: 0 <= i < |videos| ==> r[i] == f(videos[i])
  {
    seq(|videos|, i requires 0 <= i < |videos| => f(videos[i]))
  }

  /** `[...new Set(videos.map(f))]`. */
  function DistinctIds(videos: seq<SearchItem>, f: SearchItem -> string): seq<string> {
    Distinct(IdList(videos, f))
  }

  /** The id batches sent to the videos endpoint. */
  function VideoBatches(videos: seq<SearchItem>): seq<seq<string>> {
    Chunk(DistinctIds(videos, VideoIdOf), BatchSize)
  }

  /** The id batches sent to the channels endpoint. */
  function ChannelBatches(videos: seq<SearchItem>): seq<seq<string>> {
    Chunk(DistinctIds(videos, ChannelIdOf), BatchSize)
  }

  /** Some call in `batches` fails. */
  predicate AnyFailed<T>(batches: seq<seq<string>>, api: seq<string> -> Response<T>) {
    exists k :: 0 <= k < |batches| && api(batches[k]).Failed?
  }

  function SearchOnYt(
    searches: seq<string>,
    searchApi: string -> Response<SearchItem>,
    videosApi: seq<string> -> Response<VideoDetails>,
    channelsApi: seq<string> -> Response<ChannelDetails>)
    : (r: Result<Outcome, SearchError>)
    ensures SearchAll(searches, searchApi) == [] ==> r == Success(Outcome([], [], []))
  {
    var videos := SearchAll(searches, searchApi);
    if |videos| == 0 then Success(Outcome([], [], []))
    else
      var videoBatches := VideoBatches(videos);
      var channelBatches := ChannelBatches(videos);
      match FetchBatches(videoBatches, videosApi)
      case None => Failure(LookupFailed)
      case Some(detailItems) =>
        match FetchBatches(channelBatches, channelsApi)
        case None => Failure(LookupFailed)
        case Some(channelItems) =>
          var detailsMap := SetBatches(map[], detailItems, DetailsId);
          var channelsMap := SetBatches(map[], channelItems, ChannelDetailsId);
          Success(Outcome(Enrich(videos, detailsMap, channelsMap), videoBatches, channelBatches))
  }

  /** The ids looked up (f is the video id or the channel id): batches of
      at most 50, all full but the last, that together list every id of the
      search results exactly once. */
  lemma LookupBatches(videos: seq<SearchItem>, f: SearchItem -> string)
    ensures var batches := Chunk(DistinctIds(videos, f), BatchSize);
      && (forall k :: 0 <= k < |batches| ==> 0 < |batches[k]| <= BatchSize)
      && (forall k :: 0 <= k < |batches| - 1 ==> |batches[k]| == BatchSize)
      && NoDuplicates(Flatten(batches))
      && (forall i :: 0 <= i < |videos| ==> f(videos[i]) in Flatten(batches))
      && (forall id :: id in Flatten(batches) ==> exists i :: 0 <= i < |videos| && f(videos[i]) == id)
  {
    var ids := DistinctIds(videos, f);
    ChunkFlatten(ids, BatchSize);
    var all := IdList(videos, f);
    forall id | id in ids
      ensures exists i :: 0 <= i < |videos| && f(videos[i]) == id
    {
      var i :| 0 <= i < |all| && all[i] == id;
    }
    forall i | 0 <= i < |videos|
      ensures f(videos[i]) in ids
    {
      assert all[i] == f(videos[i]);
    }
  }

  /** The id lists are ordered by first appearance in the search results. */
  lemma LookupOrder(videos: seq<SearchItem>, f: SearchItem -> string)
    ensures forall i, j :: 0 <= i < j < |DistinctIds(videos, f)| ==>
      FirstIndex(IdList(videos, f), DistinctIds(videos, f)[i]) < FirstIndex(IdList(videos, f), DistinctIds(videos, f)[j])
  {
    DistinctOrder(IdList(videos, f));
  }

  /** When there are results, the search fails exactly when one lookup call
      fails: the lookup loops have no catch. */
  lemma SearchFailsOnLookupFailure(
    searches: seq<string>,
    searchApi: string -> Response<SearchItem>,
    videosApi: seq<string> -> Response<VideoDetails>,
    channelsApi: seq<string> -> Response<ChannelDetails>)
    requires |SearchAll(searches, searchApi)| > 0
    ensures SearchOnYt(searches, searchApi, videosApi, channelsApi).Failure? <==>
      || AnyFailed(VideoBatches(SearchAll(searches, searchApi)), videosApi)
      || AnyFailed(ChannelBatches(SearchAll(searches, searchApi)), channelsApi)
  {
  }

  /** A successful search enriches its results with maps whose keys are
      exactly the ids of the returned items, and reports the batches it
      requested. */
  lemma SearchSuccess(
    searches: seq<string>,
    searchApi: string -> Response<SearchItem>,
    videosApi: seq<string> -> Response<VideoDetails>,
    channelsApi: seq<string> -> Response<ChannelDetails>)
    requires SearchOnYt(searches, searchApi, videosApi, channelsApi).Success?
    ensures var videos := SearchAll(searches, searchApi);
      var videoBatches := VideoBatches(videos);
      var channelBatches := ChannelBatches(videos);
      var details := SetBatches(map[], Returned(videoBatches, videosApi), DetailsId);
      var channels := SetBatches(map[], Returned(channelBatches, channelsApi), ChannelDetailsId);
      && details.Keys == Ids(Flatten(Returned(videoBatches, videosApi)), DetailsId)
      && channels.Keys == Ids(Flatten(Returned(channelBatches, channelsApi)), ChannelDetailsId)
      && SearchOnYt(searches, searchApi, videosApi, channelsApi).value
         == Outcome(Enrich(videos, details, channels), videoBatches, channelBatches)
  {
    var videos := SearchAll(searches, searchApi);
    var videoBatches := VideoBatches(videos);
    var channelBatches := ChannelBatches(videos);
    BuiltMap(Returned(videoBatches, videosApi), DetailsId);
    BuiltMap(Returned(channelBatches, channelsApi), ChannelDetailsId);
    if |videos| == 0 {
      NoBatchesForNoResults(videos);
    } else {
      assert FetchBatches(videoBatches, videosApi).Some?;
      assert FetchBatches(channelBatches, channelsApi).Some?;
    }
  }

  /** Without results there is nothing to look up and nothing to enrich. */
  lemma NoBatchesForNoResults(videos: seq<SearchItem>)
    requires |videos| == 0
    ensures VideoBatches(videos) == [] && ChannelBatches(videos) == []
    ensures forall details, channels :: Enrich(videos, details, channels) == []
  {
    assert IdList(videos, VideoIdOf) == [];
    assert IdList(videos, ChannelIdOf) == [];
  }

  /** Every video the search returns is a long-form search result: its label
      shows more than a minute. */
  lemma SearchReturnsLongForm(
    searches: seq<string>,
    searchApi: string -> Response<SearchItem>,
    videosApi: seq<string> -> Response<VideoDetails>,
    channelsApi: seq<string> -> Response<ChannelDetails>)
    requires SearchOnYt(searches, searchApi, videosApi, channelsApi).Success?
    ensures forall e :: e in SearchOnYt(searches, searchApi, videosApi, channelsApi).value.videos ==>
      && e.item in SearchAll(searches, searchApi)
      && ParseLabel(e.duration).Some? && TotalSeconds(ParseLabel(e.duration).value) > ShortLimit
  {
    var videos := SearchAll(searches, searchApi);
    if |videos| > 0 {
      var videoBatches := VideoBatches(videos);
      var channelBatches := ChannelBatches(videos);
      var details := SetBatches(map[], Returned(videoBatches, videosApi), DetailsId);
      var channels := SetBatches(map[], Returned(channelBatches, channelsApi), ChannelDetailsId);
      SearchSuccess(searches, searchApi, videosApi, channelsApi);
      EnrichedAreLongForm(videos, details, channels);
      EnrichIsFilter(videos, details, channels);
      var out := Enrich(videos, details, channels);
      forall e | e in out
        ensures e.item in videos
      {
        var k :| 0 <= k < |out| && out[k] == e;
        DecoratedFields(videos[Survivors(videos, details)[k]], details, channels);
      }
    }
  }
}

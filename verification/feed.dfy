/** The `/feed` handler of feed.ts with its remote calls abstracted: the
    instruction is filled in and expanded into search queries, the queries
    are searched, the survivors embedded together with the prompt, scored
    and sorted by descending similarity. */
module Feed {
  import opened Wrappers
  import opened YouTube
  import opened Duration
  import opened Enrichment
  import opened Search
  import opened Template
  import opened Ranking

  /** The prompt the handler hard-codes. */
  const UserPrompt: string := "system design"

  /** The embedding call: rejected, or a response whose `embeddings` list
      may be missing. */
  datatype EmbedResponse = EmbedFailed | Embedded(embeddings: Option<seq<Embedding>>)

  /** The remote calls the handler makes. `expand` is the text generation
      together with `JSON.parse` of its text, `None` when either throws;
      `similarity` is `cosineSimilarity`. */
  datatype Services = Services(
    expand: string -> Option<seq<string>>,
    searchApi: string -> Response<SearchItem>,
    videosApi: seq<string> -> Response<VideoDetails>,
    channelsApi: seq<string> -> Response<ChannelDetails>,
    embed: seq<string> -> EmbedResponse,
    similarity: (Vector, Vector) -> real)

  /** Why the handler throws instead of answering. */
  datatype FeedError =
    | ExpansionFailed
    | SearchFailed(search: SearchError)
    | EmbeddingFailed
    | RankFailed(rank: RankError)

  /** The handler's steps for a prompt, once `instruction` is filled in. */
  function FeedWith(instruction: string, userPrompt: string, svc: Services): Result<seq<ScoredVideo>, FeedError> {
    match svc.expand(instruction)
    case None => Failure(ExpansionFailed)
    case Some(queries) =>
      match SearchOnYt(queries, svc.searchApi, svc.videosApi, svc.channelsApi)
      case Failure(e) => Failure(SearchFailed(e))
      case Success(outcome) =>
        match svc.embed(EmbeddingInputs(userPrompt, outcome.videos))
        case EmbedFailed => Failure(EmbeddingFailed)
        case Embedded(embeddings) =>
          match Rank(outcome.videos, embeddings, svc.similarity)
          case Failure(e) => Failure(RankFailed(e))
          case Success(ranked) => Success(ranked)
  }

  /** The handler's steps for a given prompt. */
  function FeedFor(userPrompt: string, svc: Services): Result<seq<ScoredVideo>, FeedError> {
    FeedWith(FillTemplate(userPrompt), userPrompt, svc)
  }

  /** `GET /feed`. */
  function GetFeed(svc: Services): Result<seq<ScoredVideo>, FeedError> {
    FeedFor(UserPrompt, svc)
  }

  /** The instruction the handler sends is the template with "system design"
      in place of the placeholder. */
  lemma Instruction()
    ensures FillTemplate(UserPrompt) == PromptHead + UserPrompt + PromptTail
  {
    FillTemplateInserts(UserPrompt);
  }

  /** The handler fails exactly when a remote call fails or the embedding
      list is too short for the prompt and every video. */
  lemma FeedFails(instruction: string, userPrompt: string, svc: Services)
    ensures FeedWith(instruction, userPrompt, svc).Failure? <==>
      || svc.expand(instruction).None?
      || (var found := SearchOnYt(svc.expand(instruction).value, svc.searchApi, svc.videosApi, svc.channelsApi);
          || found.Failure?
          || svc.embed(EmbeddingInputs(userPrompt, found.value.videos)).EmbedFailed?
          || !Covers(svc.embed(EmbeddingInputs(userPrompt, found.value.videos)).embeddings, |found.value.videos|))
  {
  }

  /** The searched videos of a successful run. */
  function Searched(instruction: string, svc: Services): seq<EnrichedVideo>
    requires svc.expand(instruction).Some?
    requires SearchOnYt(svc.expand(instruction).value, svc.searchApi, svc.videosApi, svc.channelsApi).Success?
  {
    SearchOnYt(svc.expand(instruction).value, svc.searchApi, svc.videosApi, svc.channelsApi).value.videos
  }

  /** A successful answer ranks the searched videos, and the embedding list
      covered the prompt and every video. */
  lemma FeedRanks(instruction: string, userPrompt: string, svc: Services)
    requires FeedWith(instruction, userPrompt, svc).Success?
    ensures svc.expand(instruction).Some?
    ensures SearchOnYt(svc.expand(instruction).value, svc.searchApi, svc.videosApi, svc.channelsApi).Success?
    ensures var videos := Searched(instruction, svc);
      var embeddings := svc.embed(EmbeddingInputs(userPrompt, videos)).embeddings;
      && Covers(embeddings, |videos|)
      && IsRankingOf(FeedWith(instruction, userPrompt, svc).value, videos, embeddings, svc.similarity)
  {
    var videos := Searched(instruction, svc);
    var embeddings := svc.embed(EmbeddingInputs(userPrompt, videos)).embeddings;
    assert FeedWith(instruction, userPrompt, svc).value == Rank(videos, embeddings, svc.similarity).value;
    RankOrders(videos, embeddings, svc.similarity);
  }

  /** Every video in a successful answer is a long-form search result: its
      label shows more than a minute. */
  lemma FeedIsLongForm(instruction: string, userPrompt: string, svc: Services)
    requires FeedWith(instruction, userPrompt, svc).Success?
    ensures forall x :: x in FeedWith(instruction, userPrompt, svc).value ==>
      && x.video.item in SearchAll(svc.expand(instruction).value, svc.searchApi)
      && ParseLabel(x.video.duration).Some? && TotalSeconds(ParseLabel(x.video.duration).value) > ShortLimit
  {
    FeedRanks(instruction, userPrompt, svc);
    SearchReturnsLongForm(svc.expand(instruction).value, svc.searchApi, svc.videosApi, svc.channelsApi);
  }

  /** With no search results the handler still reads entry 0 of the
      embeddings: an empty list throws, a missing list gives an empty feed. */
  lemma NoResults(instruction: string, userPrompt: string, svc: Services)
    requires svc.expand(instruction).Some?
    requires SearchAll(svc.expand(instruction).value, svc.searchApi) == []
    requires svc.embed([userPrompt]).Embedded?
    ensures svc.embed([userPrompt]).embeddings == Some([]) ==> FeedWith(instruction, userPrompt, svc) == Failure(RankFailed(MissingEmbedding))
    ensures svc.embed([userPrompt]).embeddings.None? ==> FeedWith(instruction, userPrompt, svc) == Success([])
  {
    assert EmbeddingInputs(userPrompt, []) == [userPrompt];
  }
}

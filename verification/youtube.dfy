/** The records of the YouTube Data API that ytSearch.ts reads, with every
    optional JSON field as an `Option`. */
module YouTube {
  import opened Wrappers

  datatype Thumbnail = Thumbnail(url: string)

  datatype Thumbnails = Thumbnails(
    default: Option<Thumbnail>,
    medium: Option<Thumbnail>,
    high: Option<Thumbnail>)

  datatype Snippet = Snippet(
    title: string,
    description: Option<string>,
    publishedAt: string,
    channelId: string,
    channelTitle: string,
    thumbnails: Thumbnails)

  /** One item of a search response; `id.videoId` is flattened to `videoId`. */
  datatype SearchItem = SearchItem(videoId: string, snippet: Snippet)

  datatype Statistics = Statistics(viewCount: Option<string>)

  datatype ContentDetails = ContentDetails(duration: Option<string>)

  /** One item of a videos (details) response. */
  datatype VideoDetails = VideoDetails(
    id: string,
    statistics: Option<Statistics>,
    contentDetails: Option<ContentDetails>)

  datatype ChannelSnippet = ChannelSnippet(thumbnails: Option<Thumbnails>)

  /** One item of a channels response. */
  datatype ChannelDetails = ChannelDetails(id: string, snippet: Option<ChannelSnippet>)

  /** A search item that survived the short-video filter, with the spread
      `...video` kept whole as `item`. */
  datatype EnrichedVideo = EnrichedVideo(
    item: SearchItem,
    views: string,
    duration: string,
    channelAvatarUrl: string)

  /** `videoDetails?.contentDetails?.duration`. */
  function DurationOf(details: Option<VideoDetails>): Option<string> {
    if details.Some? && details.value.contentDetails.Some? then details.value.contentDetails.value.duration
    else None
  }

  /** `videoDetails?.statistics?.viewCount`. */
  function ViewCountOf(details: Option<VideoDetails>): Option<string> {
    if details.Some? && details.value.statistics.Some? then details.value.statistics.value.viewCount
    else None
  }

  /** `channelDetails?.snippet?.thumbnails?.default?.url`. */
  function AvatarOf(channel: Option<ChannelDetails>): Option<string> {
    if && channel.Some? && channel.value.snippet.Some?
       && channel.value.snippet.value.thumbnails.Some?
       && channel.value.snippet.value.thumbnails.value.default.Some?
    then Some(channel.value.snippet.value.thumbnails.value.default.value.url)
    else None
  }
}
